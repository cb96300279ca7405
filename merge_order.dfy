/**
 * Ordering of `main_list`. Under a judge consistent with a ranking (see
 * `MergeRanking`) the merge is meant to keep `main_list` descending. As written it
 * does not, for two reasons, each shown by a concrete run below:
 *  - after a front-drawn (`Top`) group is spliced in, `list_upper` is not
 *    moved although every later group shifted one place right;
 *  - a freshly popped `sort_list` is searched inside the old outer window,
 *    because the reset to the whole of `main_list` is made to the search
 *    bounds, which are then overwritten by the outer window.
 * The corrected step below moves `list_upper` with the splice and resets the
 * outer window on a refill, drawing the first group of the fresh list from
 * its front; it is proved never to fail and to keep `main_list` descending for
 * every consistent judgement, and it agrees with the source on every step
 * that neither places a front-drawn group nor refills `sort_list`.
 */
module MergeOrder {
  import opened Wrappers
  import opened MergeSpec
  import opened MergeRanking

  // ---------------------------------------------------------------------
  // The corrected step
  // ---------------------------------------------------------------------

  /**
   * `#next_sort_element`, with the reset on a refill applied to the outer
   * window, and a fresh `sort_list` started from its front as the
   * constructor starts the first one.
   */
  function DrawCorrected<T>(s: MergeState<T>): (r: MergeState<T>)
    ensures r.mainList == s.mainList
    ensures Refills(s) ==> r.listLower == 0 && r.listUpper == |s.mainList| - 1
    ensures Refills(s) && Pool(s) != [] ==> r.mode == Top && r.currentSortElement == Some(Pool(s)[0])
    ensures !Refills(s) ==> r == NextSortElement(s)
  {
    var s1 := if Refills(s) then Refilled(s).(listUpper := |s.mainList| - 1, listLower := 0, mode := Bot) else s;
    if s1.sortList != [] then
      var s2 := Take(s1);
      Next(s2.(currentUpper := s2.listUpper, currentLower := s2.listLower))
    else
      s1.(over := true)
  }

  /** The splice of the drawn group at `current_lower`, with `list_upper` moved along on a `Top` splice. */
  function Placed<T>(s: MergeState<T>): (r: MergeState<T>)
    requires s.currentSortElement.Some?
  {
    var main := Splice(s.mainList, s.currentLower, s.currentSortElement.value);
    if s.mode == Top then s.(mainList := main, listLower := s.currentLower + 1, listUpper := s.listUpper + 1)
    else s.(mainList := main, listUpper := s.currentLower - 1)
  }

  /** A placement that moves `list_upper` along with the groups a `Top` splice shifts. */
  function PlaceCorrected<T>(s: MergeState<T>): (r: MergeState<T>)
    requires s.currentSortElement.Some?
    ensures r.mainList == Splice(s.mainList, s.currentLower, s.currentSortElement.value)
    ensures s.mode == Bot && !Refills(s) ==> r == Place(s)
  {
    DrawCorrected(Placed(s))
  }

  /** Whether decision `d` empties the window and so places the drawn group. */
  predicate Places<T>(s: MergeState<T>, d: Decision)
  {
    (d == Greater && GreaterPlaces(s)) || (d == Less && LessPlaces(s))
  }

  /** One decision of the corrected merge; it fails exactly where the source's step does. */
  function StepCorrected<T>(s: MergeState<T>, d: Decision): (r: Result<MergeState<T>>)
    requires s.currentSortElement.Some?
    ensures r.Failure? <==> Step(s, d).Failure?
  {
    match d
    case Greater =>
      var s1 := s.(currentUpper := s.middle - 1);
      Success(if s1.currentUpper < s1.currentLower then PlaceCorrected(s1) else Next(s1))
    case Less =>
      var s1 := s.(currentLower := s.middle + 1);
      Success(if s1.currentLower > s1.currentUpper then PlaceCorrected(s1) else Next(s1))
    case Tie =>
      if !(0 <= s.middle < |s.mainList|) then
        Failure(TypeError("main_list[middle] is undefined"))
      else
        Success(DrawCorrected(MergeInto(s)))
  }

  /** `equal` before its draw: the group joins `main_list[middle]` and the outer window is narrowed past it. */
  function MergeInto<T>(s: MergeState<T>): (r: MergeState<T>)
    requires s.currentSortElement.Some? && 0 <= s.middle < |s.mainList|
    ensures |r.mainList| == |s.mainList|
    ensures r.mainList[s.middle] == s.mainList[s.middle] + s.currentSortElement.value
    ensures forall i :: 0 <= i < |s.mainList| && i != s.middle ==> r.mainList[i] == s.mainList[i]
    ensures r.sortList == s.sortList && r.documentLists == s.documentLists
    ensures s.mode == Top ==> r.listLower == s.middle + 1 && r.listUpper == s.listUpper
    ensures s.mode == Bot ==> r.listUpper == s.middle - 1 && r.listLower == s.listLower
  {
    var main := s.mainList[s.middle := s.mainList[s.middle] + s.currentSortElement.value];
    if s.mode == Top then s.(mainList := main, listLower := s.middle + 1)
    else s.(mainList := main, listUpper := s.middle - 1)
  }

  // ---------------------------------------------------------------------
  // Agreement with the source
  // ---------------------------------------------------------------------

  /** The corrected step is the source's step unless it places a front-drawn group or refills `sort_list`. */
  lemma StepAgrees<T>(s: MergeState<T>, d: Decision)
    requires s.currentSortElement.Some?
    requires !(s.mode == Top && Places(s, d)) && !Refills(s)
    ensures StepCorrected(s, d) == Step(s, d)
  {
    match d
    case Greater =>
      var s1 := s.(currentUpper := s.middle - 1);
      if GreaterPlaces(s) {
        BotPlaceAgrees(s1);
      } else {
        assert GreaterThan(s) == Next(s1);
      }
    case Less =>
      var s1 := s.(currentLower := s.middle + 1);
      if LessPlaces(s) {
        BotPlaceAgrees(s1);
      } else {
        assert LessThan(s) == Next(s1);
      }
    case Tie =>
      if 0 <= s.middle < |s.mainList| {
        var s1 := MergeInto(s);
        assert DrawCorrected(s1) == NextSortElement(s1);
      }
  }

  /** A back-drawn placement without a refill ahead is the source's. */
  lemma BotPlaceAgrees<T>(s: MergeState<T>)
    requires s.currentSortElement.Some? && s.mode == Bot && !Refills(s)
    ensures PlaceCorrected(s) == Place(s)
  {
    assert Placed(s) == Spliced(s);
  }

  // ---------------------------------------------------------------------
  // Preservation, on sequences
  // ---------------------------------------------------------------------

  lemma SpliceIndex<X>(a: seq<X>, p: int, x: X)
    requires 0 <= p <= |a|
    ensures |Splice(a, p, x)| == |a| + 1 && Splice(a, p, x)[p] == x
    ensures forall i :: 0 <= i < p ==> Splice(a, p, x)[i] == a[i]
    ensures forall i :: p < i <= |a| ==> Splice(a, p, x)[i] == a[i - 1]
  {
    assert Clamp(p, |a|) == p;
    assert Splice(a, p, x) == a[..p] + [x] + a[p..];
  }

  lemma SpliceDescending<T>(key: T -> int, a: seq<seq<T>>, p: int, x: seq<T>)
    requires Descending(key, a) && 0 <= p <= |a| && Uniform(key, x)
    requires forall i :: 0 <= i < p ==> Rank(key, x) <= Rank(key, a[i])
    requires forall i :: p <= i < |a| ==> Rank(key, a[i]) <= Rank(key, x)
    ensures Descending(key, Splice(a, p, x))
  {
    SpliceIndex(a, p, x);
    var r := Splice(a, p, x);
    forall i | 0 <= i < |r|
      ensures Uniform(key, r[i])
    {
      if i > p {
        assert r[i] == a[i - 1];
      }
    }
    forall i, j | 0 <= i < j < |r|
      ensures Rank(key, r[j]) <= Rank(key, r[i])
    {
      if j < p {
        assert r[i] == a[i] && r[j] == a[j];
      } else if j == p {
        assert r[i] == a[i];
      } else if i < p {
        assert r[i] == a[i] && r[j] == a[j - 1];
      } else if i == p {
        assert r[j] == a[j - 1];
      } else {
        assert r[i] == a[i - 1] && r[j] == a[j - 1];
      }
    }
  }

  lemma MergeDescending<T>(key: T -> int, a: seq<seq<T>>, m: int, x: seq<T>)
    requires Descending(key, a) && 0 <= m < |a| && Uniform(key, x) && Rank(key, x) == Rank(key, a[m])
    ensures Descending(key, a[m := a[m] + x])
    ensures Rank(key, a[m] + x) == Rank(key, a[m])
  {
    var g := a[m] + x;
    assert g[0] == a[m][0];
    assert forall k :: 0 <= k < |g| ==> g[k] == if k < |a[m]| then a[m][k] else x[k - |a[m]|];
    assert Uniform(key, g);
  }

  /** In a descending list, everything from `m` on ranks at most `a[m]`. */
  lemma BelowFrom<T>(key: T -> int, a: seq<seq<T>>, m: int, x: seq<T>)
    requires Descending(key, a) && 0 <= m < |a| && Rank(key, a[m]) <= Rank(key, x)
    ensures forall i :: m <= i < |a| ==> Rank(key, a[i]) <= Rank(key, x)
  {
  }

  /** In a descending list, everything up to `m` ranks at least `a[m]`. */
  lemma AboveUpTo<T>(key: T -> int, a: seq<seq<T>>, m: int, x: seq<T>)
    requires Descending(key, a) && 0 <= m < |a| && Rank(key, x) <= Rank(key, a[m])
    ensures forall i :: 0 <= i <= m ==> Rank(key, x) <= Rank(key, a[i])
  {
  }

  /** The outer window after a `Top` splice at `p` with `list_upper` moved along. */
  lemma TopWindow<T>(key: T -> int, a: seq<seq<T>>, p: int, x: seq<T>, sort: seq<seq<T>>, lu: int)
    requires 0 <= p <= |a| && -1 <= lu
    requires forall i :: 0 <= i < p ==> Rank(key, x) <= Rank(key, a[i])
    requires AtLeast(key, x, sort)
    requires forall i :: lu < i < |a| ==> AtMost(key, a[i], sort)
    ensures forall i :: 0 <= i < p + 1 ==> AtLeast(key, Splice(a, p, x)[i], sort)
    ensures forall i :: lu + 1 < i < |a| + 1 ==> AtMost(key, Splice(a, p, x)[i], sort)
  {
    SpliceIndex(a, p, x);
    var r := Splice(a, p, x);
    forall i | lu + 1 < i < |a| + 1
      ensures AtMost(key, r[i], sort)
    {
      if i == p {
        assert AtMost(key, a[p - 1], sort);
      } else if i < p {
        assert r[i] == a[i];
      } else {
        assert r[i] == a[i - 1];
      }
    }
  }

  /** The outer window after a `Bot` splice at `p` with `list_upper` set to `p - 1`. */
  lemma BotWindow<T>(key: T -> int, a: seq<seq<T>>, p: int, x: seq<T>, sort: seq<seq<T>>, ll: int, cu: int)
    requires 0 <= p <= |a| && cu < p && 0 <= ll <= |a|
    requires forall i :: 0 <= i < ll ==> AtLeast(key, a[i], sort)
    requires forall i :: 0 <= i < |a| && cu < i ==> Rank(key, a[i]) <= Rank(key, x)
    requires AtMost(key, x, sort)
    ensures forall i :: 0 <= i < ll ==> AtLeast(key, Splice(a, p, x)[i], sort)
    ensures forall i :: p - 1 < i < |a| + 1 ==> AtMost(key, Splice(a, p, x)[i], sort)
  {
    SpliceIndex(a, p, x);
    var r := Splice(a, p, x);
    forall i | 0 <= i < ll
      ensures AtLeast(key, r[i], sort)
    {
      if i == p {
        assert AtLeast(key, a[p], sort);
      } else if i > p {
        assert r[i] == a[i - 1];
      }
    }
    forall i | p - 1 < i < |a| + 1
      ensures AtMost(key, r[i], sort)
    {
      if i > p {
        assert r[i] == a[i - 1];
      }
    }
  }

  // ---------------------------------------------------------------------
  // Preservation, on states
  // ---------------------------------------------------------------------

  /** Drawing from a non-empty `sort_list` into a window whose middle lies in `main_list` establishes the invariant. */
  lemma DrawnFrom<T>(key: T -> int, s: MergeState<T>)
    requires ListsDescending(key, s) && Window(key, s) && s.sortList != []
    requires s.listLower >= 1 || (s.mode == Bot && s.listUpper >= 0)
    ensures Ordered(key, DrawCorrected(s))
  {
    var t := Take(s);
    var u := t.(currentUpper := t.listUpper, currentLower := t.listLower);
    if s.mode == Top {
      TakenTop(key, s);
    } else {
      TakenBot(key, s);
    }
    SearchStarts(key, u);
  }

  /** Popping the last (lowest) group of `sort_list` opens the search on the outer window. */
  lemma TakenTop<T>(key: T -> int, s: MergeState<T>)
    requires ListsDescending(key, s) && Window(key, s) && s.sortList != [] && s.mode == Top
    ensures var t := Take(s);
      var u := t.(currentUpper := t.listUpper, currentLower := t.listLower);
      ListsDescending(key, u) && Window(key, u) && Drawn(key, u) && Bracketed(key, u)
  {
    var sort := s.sortList;
    var n := |sort|;
    var u := Take(s).(currentUpper := s.listUpper, currentLower := s.listLower);
    assert u.currentSortElement == Some(sort[n - 1]) && u.sortList == sort[..n - 1];
    assert forall k :: 0 <= k < n - 1 ==> u.sortList[k] == sort[k];
    assert Descending(key, u.sortList);
  }

  /** Shifting the first (highest) group of `sort_list` opens the search on the outer window. */
  lemma TakenBot<T>(key: T -> int, s: MergeState<T>)
    requires ListsDescending(key, s) && Window(key, s) && s.sortList != [] && s.mode == Bot
    ensures var t := Take(s);
      var u := t.(currentUpper := t.listUpper, currentLower := t.listLower);
      ListsDescending(key, u) && Window(key, u) && Drawn(key, u) && Bracketed(key, u)
  {
    var sort := s.sortList;
    var n := |sort|;
    var u := Take(s).(currentUpper := s.listUpper, currentLower := s.listLower);
    assert u.currentSortElement == Some(sort[0]) && u.sortList == sort[1..];
    assert forall k :: 0 <= k < n - 1 ==> u.sortList[k] == sort[k + 1];
    assert Descending(key, u.sortList);
  }

  /** Computing the middle of a sound search window completes the invariant. */
  lemma SearchStarts<T>(key: T -> int, u: MergeState<T>)
    requires ListsDescending(key, u) && Window(key, u) && Drawn(key, u) && Bracketed(key, u)
    requires 0 <= u.currentLower + u.currentUpper && u.currentUpper < |u.mainList|
    requires u.mode == Bot ==> u.listLower >= 1
    ensures Ordered(key, Next(u))
  {
    var r := Next(u);
    assert r.(middle := u.middle, currentComparisonElement := u.currentComparisonElement) == u;
    assert ListsDescending(key, r) && Window(key, r) && Drawn(key, r) && Bracketed(key, r);
  }

  /**
   * A draw from a placed state (lists descending, outer window sound, and
   * `list_lower` past a placed group unless a fresh list is started)
   * re-establishes the invariant.
   */
  lemma {:induction false} DrawKeepsOrder<T>(key: T -> int, s: MergeState<T>)
    requires ListsDescending(key, s) && Window(key, s)
    requires |s.mainList| >= 1 && (Refills(s) || s.listLower >= 1)
    ensures Ordered(key, DrawCorrected(s))
  {
    if Refills(s) {
      var s1 := s.(sortList := Last(s.documentLists), documentLists := s.documentLists[..|s.documentLists| - 1],
                   listUpper := |s.mainList| - 1, listLower := 0, mode := Bot);
      assert ListsDescending(key, s1);
      assert Window(key, s1);
      if s1.sortList != [] {
        DrawnFrom(key, s1);
        assert DrawCorrected(s1) == DrawCorrected(s);
      }
    } else if s.sortList != [] {
      DrawnFrom(key, s);
    }
  }

  /** The splice keeps every list descending and the outer window sound. */
  lemma PlacedWindow<T>(key: T -> int, s: MergeState<T>)
    requires ListsDescending(key, s) && Window(key, s) && Drawn(key, s) && Bracketed(key, s)
    requires s.currentUpper < s.currentLower
    ensures ListsDescending(key, Placed(s)) && Window(key, Placed(s))
  {
    var p := s.currentLower;
    var x := s.currentSortElement.value;
    var a := s.mainList;
    SpliceDescending(key, a, p, x);
    if s.mode == Top {
      TopWindow(key, a, p, x, s.sortList, s.listUpper);
    } else {
      BotWindow(key, a, p, x, s.sortList, s.listLower, s.currentUpper);
    }
  }

  /** Placing the drawn group once the window is empty keeps the invariant. */
  lemma PlaceKeepsOrder<T>(key: T -> int, s: MergeState<T>)
    requires ListsDescending(key, s) && Window(key, s) && Drawn(key, s) && Bracketed(key, s)
    requires s.currentUpper < s.currentLower && (s.mode == Bot ==> s.listLower >= 1)
    ensures Ordered(key, PlaceCorrected(s))
  {
    PlacedWindow(key, s);
    SpliceIndex(s.mainList, s.currentLower, s.currentSortElement.value);
    DrawKeepsOrder(key, Placed(s));
  }

  /** A search step that narrows the window keeps the invariant. */
  lemma NextKeepsOrder<T>(key: T -> int, s: MergeState<T>)
    requires ListsDescending(key, s) && Window(key, s) && Drawn(key, s) && Bracketed(key, s) && !s.over
    requires s.currentLower <= s.currentUpper < |s.mainList| && (s.mode == Bot ==> s.listLower >= 1)
    ensures Ordered(key, Next(s))
  {
  }

  /** After a consistent `Greater`, the group still belongs at or before the new `current_upper + 1`. */
  lemma GreaterNarrows<T>(key: T -> int, s: MergeState<T>)
    requires Ordered(key, s) && !s.over && Judged(key, s, Greater)
    ensures var s1 := s.(currentUpper := s.middle - 1);
      ListsDescending(key, s1) && Window(key, s1) && Drawn(key, s1) && Bracketed(key, s1)
      && s1.currentUpper < |s1.mainList| && (s1.mode == Bot ==> s1.listLower >= 1)
  {
    var m := s.middle;
    assert 0 <= m < |s.mainList| && s.currentComparisonElement.value == s.mainList[m];
    BelowFrom(key, s.mainList, m, s.currentSortElement.value);
  }

  /** A search step that empties the window places the group; one that does not goes on searching. */
  lemma NarrowedKeepsOrder<T>(key: T -> int, s: MergeState<T>)
    requires ListsDescending(key, s) && Window(key, s) && Drawn(key, s) && Bracketed(key, s) && !s.over
    requires s.currentUpper < |s.mainList| && (s.mode == Bot ==> s.listLower >= 1)
    ensures Ordered(key, if s.currentUpper < s.currentLower then PlaceCorrected(s) else Next(s))
  {
    if s.currentUpper < s.currentLower {
      PlaceKeepsOrder(key, s);
    } else {
      NextKeepsOrder(key, s);
    }
  }

  lemma OrderedTransfer<T>(key: T -> int, a: MergeState<T>, b: MergeState<T>)
    requires Ordered(key, a) && a == b
    ensures Ordered(key, b)
  {
  }

  lemma GreaterStep<T>(s: MergeState<T>)
    requires s.currentSortElement.Some?
    ensures var s1 := s.(currentUpper := s.middle - 1);
      StepCorrected(s, Greater) == Success(if s1.currentUpper < s1.currentLower then PlaceCorrected(s1) else Next(s1))
  {
  }

  lemma GreaterKeepsOrder<T>(key: T -> int, s: MergeState<T>)
    requires Ordered(key, s) && !s.over && Judged(key, s, Greater)
    ensures Ordered(key, StepCorrected(s, Greater).value)
  {
    GreaterNarrows(key, s);
    var s1 := s.(currentUpper := s.middle - 1);
    NarrowedKeepsOrder(key, s1);
    GreaterStep(s);
    OrderedTransfer(key, if s1.currentUpper < s1.currentLower then PlaceCorrected(s1) else Next(s1),
                    StepCorrected(s, Greater).value);
  }

  /** After a consistent `Less`, the group still belongs at or after the new `current_lower`. */
  lemma LessNarrows<T>(key: T -> int, s: MergeState<T>)
    requires Ordered(key, s) && !s.over && Judged(key, s, Less)
    ensures var s1 := s.(currentLower := s.middle + 1);
      ListsDescending(key, s1) && Window(key, s1) && Drawn(key, s1) && Bracketed(key, s1)
      && s1.currentUpper < |s1.mainList| && (s1.mode == Bot ==> s1.listLower >= 1)
  {
    var m := s.middle;
    assert 0 <= m < |s.mainList| && s.currentComparisonElement.value == s.mainList[m];
    AboveUpTo(key, s.mainList, m, s.currentSortElement.value);
  }

  lemma LessStep<T>(s: MergeState<T>)
    requires s.currentSortElement.Some?
    ensures var s1 := s.(currentLower := s.middle + 1);
      StepCorrected(s, Less) == Success(if s1.currentUpper < s1.currentLower then PlaceCorrected(s1) else Next(s1))
  {
  }

  lemma LessKeepsOrder<T>(key: T -> int, s: MergeState<T>)
    requires Ordered(key, s) && !s.over && Judged(key, s, Less)
    ensures Ordered(key, StepCorrected(s, Less).value)
  {
    LessNarrows(key, s);
    var s1 := s.(currentLower := s.middle + 1);
    NarrowedKeepsOrder(key, s1);
    LessStep(s);
    OrderedTransfer(key, if s1.currentUpper < s1.currentLower then PlaceCorrected(s1) else Next(s1),
                    StepCorrected(s, Less).value);
  }

  /** A consistent `Tie` merges into a group of the same rank and keeps the outer window sound. */
  lemma TieMerges<T>(key: T -> int, s: MergeState<T>)
    requires Ordered(key, s) && !s.over && Judged(key, s, Tie)
    ensures 0 <= s.middle < |s.mainList|
    ensures ListsDescending(key, MergeInto(s)) && Window(key, MergeInto(s))
    ensures |MergeInto(s).mainList| >= 1 && MergeInto(s).listLower >= 1
  {
    var m := s.middle;
    var x := s.currentSortElement.value;
    var a := s.mainList;
    assert 0 <= m < |a| && s.currentComparisonElement.value == a[m];
    MergeDescending(key, a, m, x);
    var main := a[m := a[m] + x];
    assert forall i :: 0 <= i < |main| && i != m ==> main[i] == a[i];
    var s1 := MergeInto(s);
    assert s1.mainList == main;
    assert ListsDescending(key, s1);
    if s.mode == Top {
      AboveUpTo(key, main, m, x);
    } else {
      BelowFrom(key, main, m, x);
    }
  }

  lemma TieKeepsOrder<T>(key: T -> int, s: MergeState<T>)
    requires Ordered(key, s) && !s.over && Judged(key, s, Tie)
    ensures StepCorrected(s, Tie).Success?
    ensures Ordered(key, StepCorrected(s, Tie).value)
  {
    TieMerges(key, s);
    DrawKeepsOrder(key, MergeInto(s));
  }

  /**
   * The corrected merge keeps `main_list` descending: every decision that
   * agrees with the ranks preserves the ordering invariant, and never fails.
   */
  lemma CorrectedStepKeepsOrder<T>(key: T -> int, s: MergeState<T>, d: Decision)
    requires Ordered(key, s) && !s.over && Judged(key, s, d)
    ensures StepCorrected(s, d).Success?
    ensures Ordered(key, StepCorrected(s, d).value)
    ensures Descending(key, StepCorrected(s, d).value.mainList)
  {
    match d
    case Greater => GreaterKeepsOrder(key, s);
    case Less => LessKeepsOrder(key, s);
    case Tie => TieKeepsOrder(key, s);
  }

  /**
   * The source as written keeps `main_list` descending on every consistent
   * step that neither places a front-drawn group nor refills `sort_list`.
   */
  lemma AsWrittenStepKeepsOrder<T>(key: T -> int, s: MergeState<T>, d: Decision)
    requires Ordered(key, s) && !s.over && Judged(key, s, d)
    requires !(s.mode == Top && Places(s, d)) && !Refills(s)
    ensures Step(s, d).Success? && Ordered(key, Step(s, d).value)
  {
    CorrectedStepKeepsOrder(key, s, d);
    StepAgrees(s, d);
  }

  // ---------------------------------------------------------------------
  // Runs
  // ---------------------------------------------------------------------

  /** The source's step or the corrected one. */
  datatype Variant = AsWritten | Corrected

  function StepBy<T>(v: Variant, s: MergeState<T>, d: Decision): (r: Result<MergeState<T>>)
    requires s.currentSortElement.Some?
    ensures v == AsWritten ==> r == Step(s, d)
    ensures v == Corrected ==> r == StepCorrected(s, d)
  {
    if v == AsWritten then Step(s, d) else StepCorrected(s, d)
  }

  /**
   * The harness loop: decisions are applied until `over` is set. Reading
   * `[0]` of an undefined drawn or comparison group throws a TypeError.
   */
  function Run<T>(v: Variant, s: MergeState<T>, ds: seq<Decision>): (r: Result<MergeState<T>>)
    ensures ds == [] || s.over ==> r == Success(s)
    ensures r.Success? && ds != [] && !s.over ==>
      s.currentSortElement.Some? && s.currentComparisonElement.Some? && StepBy(v, s, ds[0]).Success?
    decreases |ds|
  {
    if ds == [] || s.over then Success(s)
    else if s.currentSortElement.None? || s.currentComparisonElement.None? then
      Failure(TypeError("cannot read properties of undefined (reading '0')"))
    else
      match StepBy(v, s, ds[0])
      case Failure(e) => Failure(e)
      case Success(t) => Run(v, t, ds[1..])
  }

  /** Every decision of the run, up to `over` or a throw, agrees with the ranks. */
  predicate Consistent<T>(key: T -> int, v: Variant, s: MergeState<T>, ds: seq<Decision>)
    decreases |ds|
  {
    ds == [] || s.over || s.currentSortElement.None? || s.currentComparisonElement.None?
    || (Judged(key, s, ds[0])
        && (StepBy(v, s, ds[0]).Success? ==> Consistent(key, v, StepBy(v, s, ds[0]).value, ds[1..])))
  }

  /** Every consistent run of the corrected merge succeeds and leaves `main_list` descending. */
  lemma {:induction false} CorrectedRunSorted<T>(key: T -> int, s: MergeState<T>, ds: seq<Decision>)
    requires Ordered(key, s) && Consistent(key, Corrected, s, ds)
    ensures Run(Corrected, s, ds).Success?
    ensures Ordered(key, Run(Corrected, s, ds).value)
    ensures Descending(key, Run(Corrected, s, ds).value.mainList)
    decreases |ds|
  {
    if ds != [] && !s.over {
      assert s.currentSortElement.Some? && s.currentComparisonElement.Some?;
      assert Judged(key, s, ds[0]);
      CorrectedStepKeepsOrder(key, s, ds[0]);
      var t := StepCorrected(s, ds[0]).value;
      assert StepBy(Corrected, s, ds[0]) == Success(t);
      assert Consistent(key, Corrected, t, ds[1..]);
      CorrectedRunSorted(key, t, ds[1..]);
      assert Run(Corrected, s, ds) == Run(Corrected, t, ds[1..]);
    }
  }

  // ---------------------------------------------------------------------
  // The constructor and the harness
  // ---------------------------------------------------------------------

  /** Every list of `all` is descending when `all` holds the same lists as `lists`. */
  lemma SameListsDescending<T>(key: T -> int, lists: seq<seq<seq<T>>>, all: seq<seq<seq<T>>>)
    requires multiset(all) == multiset(lists)
    requires forall i :: 0 <= i < |lists| ==> Descending(key, lists[i])
    ensures forall i :: 0 <= i < |all| ==> Descending(key, all[i])
  {
    forall i | 0 <= i < |all|
      ensures Descending(key, all[i])
    {
      assert all[i] in multiset(lists);
    }
  }

  /** The constructor's state is ordered when its lists are descending and a group was drawn. */
  lemma StartOrdered<T>(key: T -> int, s: MergeState<T>)
    requires s.mode == Top && !s.over && s.currentSortElement.Some? && |s.mainList| >= 1
    requires s.currentLower == 0 && s.listLower == 0
    requires s.currentUpper == |s.mainList| - 1 && s.listUpper == |s.mainList| - 1
    requires s.middle == MiddleIndex(s.currentUpper, s.currentLower)
    requires s.currentComparisonElement == At(s.mainList, s.middle)
    requires Descending(key, s.mainList) && Descending(key, Undrawn(s))
    requires forall i :: 0 <= i < |s.documentLists| ==> Descending(key, s.documentLists[i])
    ensures Ordered(key, s)
  {
    var u := Undrawn(s);
    assert u == [s.currentSortElement.value] + s.sortList;
    assert forall k :: 0 <= k < |s.sortList| ==> s.sortList[k] == u[k + 1];
    assert Descending(key, s.sortList);
    assert Uniform(key, u[0]);
  }

  /** The constructor's state is ordered when it holds the same lists as `lists`, all descending. */
  lemma StartFromLists<T>(key: T -> int, lists: seq<seq<seq<T>>>, s: MergeState<T>)
    requires s.mode == Top && !s.over && s.currentSortElement.Some? && |s.mainList| >= 1
    requires s.currentLower == 0 && s.listLower == 0
    requires s.currentUpper == |s.mainList| - 1 && s.listUpper == |s.mainList| - 1
    requires s.middle == MiddleIndex(s.currentUpper, s.currentLower)
    requires s.currentComparisonElement == At(s.mainList, s.middle)
    requires multiset(s.documentLists + [Undrawn(s), s.mainList]) == multiset(lists)
    requires forall i :: 0 <= i < |lists| ==> Descending(key, lists[i])
    ensures Ordered(key, s)
  {
    var all := s.documentLists + [Undrawn(s), s.mainList];
    SameListsDescending(key, lists, all);
    var n := |s.documentLists|;
    assert forall i :: 0 <= i < n ==> s.documentLists[i] == all[i];
    assert all[n] == Undrawn(s) && all[n + 1] == s.mainList;
    StartOrdered(key, s);
  }

  /** Merging descending lists starts in an ordered state, once a group has been drawn. */
  lemma InitOrdered<T>(key: T -> int, lists: seq<seq<seq<T>>>)
    requires |lists| >= 2
    requires forall i :: 0 <= i < |lists| ==> Descending(key, lists[i])
    ensures Init(lists, 1).Success?
    ensures Init(lists, 1).value.currentSortElement.Some? ==> Ordered(key, Init(lists, 1).value)
  {
    InitOrder(lists);
    var s := Init(lists, 1).value;
    assert multiset(SortByLength(lists)) == multiset(lists);
    if s.currentSortElement.Some? {
      var all := SortByLength(lists);
      assert all[|all| - 2] == Undrawn(s) && all[|all| - 1] == s.mainList;
      assert |Undrawn(s)| <= |s.mainList|;
      StartFromLists(key, lists, s);
    }
  }

  /**
   * Merging descending lists with the corrected merge: once the constructor
   * has drawn a group, every consistent run succeeds (it never reads an
   * undefined group) and leaves `main_list` descending.
   */
  lemma CorrectedMergeSorted<T>(key: T -> int, lists: seq<seq<seq<T>>>, ds: seq<Decision>)
    requires |lists| >= 2
    requires forall i :: 0 <= i < |lists| ==> Descending(key, lists[i])
    requires Init(lists, 1).Success? && Init(lists, 1).value.currentSortElement.Some?
    requires Consistent(key, Corrected, Init(lists, 1).value, ds)
    ensures Run(Corrected, Init(lists, 1).value, ds).Success?
    ensures Descending(key, Run(Corrected, Init(lists, 1).value, ds).value.mainList)
  {
    InitOrdered(key, lists);
    CorrectedRunSorted(key, Init(lists, 1).value, ds);
  }

  /**
   * A pending list `[k + 9], [k + 8]` that outranks all of `main_list`. Had
   * its back group `[k + 8]` been drawn first, it would be placed at 0 and
   * leave `[k + 9]` an empty window at 0 with no group to compare with.
   */
  function FreshTopLists(k: int): seq<seq<seq<int>>>
  {
    [Countdown(k + 9, k + 8), Countdown(k + 3, k + 1), Countdown(k + 6, k + 4)]
  }

  /** On `FreshTopLists` every consistent run of the corrected merge succeeds and sorts `main_list`. */
  lemma FreshTopCorrected(k: int, ds: seq<Decision>)
    requires Init(FreshTopLists(k), 1).Success? && Consistent(Id, Corrected, Init(FreshTopLists(k), 1).value, ds)
    ensures Run(Corrected, Init(FreshTopLists(k), 1).value, ds).Success?
    ensures Descending(Id, Run(Corrected, Init(FreshTopLists(k), 1).value, ds).value.mainList)
  {
    FreshTopStart(k);
    FreshTopDescending(k);
    CorrectedMergeSorted(Id, FreshTopLists(k), ds);
  }

  lemma FreshTopStart(k: int)
    ensures Init(FreshTopLists(k), 1).Success? && Init(FreshTopLists(k), 1).value.currentSortElement.Some?
  {
    var lists := FreshTopLists(k);
    assert SortedByLength(lists);
    InitSorted(lists);
  }

  lemma FreshTopDescending(k: int)
    ensures forall i :: 0 <= i < |FreshTopLists(k)| ==> Descending(Id, FreshTopLists(k)[i])
  {
    CountdownDescending(k + 9, k + 8);
    CountdownDescending(k + 3, k + 1);
    CountdownDescending(k + 6, k + 4);
  }

  /** The key the harness ranks by: the number itself. */
  function Id(x: int): int
  {
    x
  }

  /** `[...range(low, high)]` sorted from high to low: the groups `[high]` down to `[low]`. */
  function Countdown(high: int, low: int): (r: seq<seq<int>>)
    requires low <= high + 1
    ensures |r| == high - low + 1
    ensures forall i :: 0 <= i < |r| ==> r[i] == [high - i]
  {
    seq(high - low + 1, i => [high - i])
  }

  lemma CountdownDescending(high: int, low: int)
    requires low <= high + 1
    ensures Descending(Id, Countdown(high, low))
  {
    var r := Countdown(high, low);
    assert forall i :: 0 <= i < |r| ==> Rank(Id, r[i]) == high - i;
  }

  /**
   * The harness starts ordered: the longer list is the main list, nothing
   * is pending, and so every consistent step that does not place a
   * front-drawn group keeps `main_list` descending (`AsWrittenStepKeepsOrder`).
   */
  lemma HarnessStart()
    ensures Init([Countdown(100, 1), Countdown(150, 23)], 1).Success?
    ensures var s := Init([Countdown(100, 1), Countdown(150, 23)], 1).value;
      s.mainList == Countdown(150, 23) && s.documentLists == [] && s.currentSortElement == Some([100])
      && Ordered(Id, s) && !Refills(s)
  {
    CountdownDescending(100, 1);
    CountdownDescending(150, 23);
    TwoListsStart(Countdown(100, 1), Countdown(150, 23));
    TwoListsOrdered(Id, Countdown(100, 1), Countdown(150, 23));
    assert Countdown(100, 1)[0] == [100];
  }

  /** Merging a list into a longer one: the longer is the main list, nothing is pending, the first group is drawn. */
  lemma TwoListsStart<T>(a: seq<seq<T>>, b: seq<seq<T>>)
    requires 1 <= |a| <= |b|
    ensures Init([a, b], 1).Success?
    ensures var s := Init([a, b], 1).value;
      s.mainList == b && s.documentLists == [] && s.currentSortElement == Some(a[0]) && !Refills(s)
  {
    var lists := [a, b];
    assert SortedByLength(lists);
    InitSorted(lists);
  }

  /** Merging a descending list into a longer descending one starts ordered. */
  lemma TwoListsOrdered<T>(key: T -> int, a: seq<seq<T>>, b: seq<seq<T>>)
    requires 1 <= |a| <= |b|
    requires Descending(key, a) && Descending(key, b)
    ensures Init([a, b], 1).Success? && Ordered(key, Init([a, b], 1).value)
  {
    TwoListsStart(a, b);
    InitOrdered(key, [a, b]);
  }

  /** On lists already sorted by length the constructor keeps their order. */
  lemma InitSorted<T>(lists: seq<seq<seq<T>>>)
    requires |lists| >= 2 && SortedByLength(lists)
    ensures Init(lists, 1) == Success(Start(lists))
  {
    SortSorted(lists);
    assert SortedBatches(lists, 1) == lists;
  }

  /** One decision of a run. */
  lemma RunStep<T>(v: Variant, s: MergeState<T>, d: Decision, ds: seq<Decision>, t: MergeState<T>)
    requires !s.over && s.currentSortElement.Some? && s.currentComparisonElement.Some?
    requires StepBy(v, s, d) == Success(t)
    ensures Run(v, s, [d] + ds) == Run(v, t, ds)
  {
    assert ([d] + ds)[0] == d && ([d] + ds)[1..] == ds;
  }

  /** One consistent decision of a run. */
  lemma ConsistentStep<T>(key: T -> int, v: Variant, s: MergeState<T>, d: Decision, ds: seq<Decision>, t: MergeState<T>)
    requires !s.over && Judged(key, s, d) && StepBy(v, s, d) == Success(t) && Consistent(key, v, t, ds)
    ensures Consistent(key, v, s, [d] + ds)
  {
    assert ([d] + ds)[0] == d && ([d] + ds)[1..] == ds;
  }

  /** Decision `d`, consistent with the ranks, takes the unfinished state `s` to `t`. */
  ghost predicate Leads<T>(key: T -> int, v: Variant, s: MergeState<T>, d: Decision, t: MergeState<T>)
  {
    !s.over && Judged(key, s, d) && StepBy(v, s, d) == Success(t)
  }

  /** A run through `states`, each reached from the one before by a consistent decision of `ds`. */
  lemma {:induction false} Trace<T>(key: T -> int, v: Variant, states: seq<MergeState<T>>, ds: seq<Decision>)
    requires |states| == |ds| + 1
    requires forall i :: 0 <= i < |ds| ==> Leads(key, v, states[i], ds[i], states[i + 1])
    ensures Run(v, states[0], ds) == Success(Last(states))
    ensures Consistent(key, v, states[0], ds)
    decreases |ds|
  {
    if ds != [] {
      Trace(key, v, states[1..], ds[1..]);
      assert Last(states[1..]) == Last(states);
      RunStep(v, states[0], ds[0], ds[1..], states[1]);
      ConsistentStep(key, v, states[0], ds[0], ds[1..], states[1]);
      assert [ds[0]] + ds[1..] == ds;
    }
  }

  // ---------------------------------------------------------------------
  // Counterexamples
  // ---------------------------------------------------------------------

  /** A main list `[k + 4], [k + 2]` and a list `[k + 3], [k + 1]` to merge into it. */
  function TopBugLists(k: int): seq<seq<seq<int>>>
  {
    [[[k + 3], [k + 1]], [[k + 4], [k + 2]]]
  }

  // The states of the merge of `TopBugLists` under the judgements less, greater, less.

  function TopBug0(k: int): MergeState<int>
  {
    MergeState([], [[k + 4], [k + 2]], [[k + 1]], 1, 0, 1, 0, 0, Top, Some([k + 3]), Some([k + 4]), false)
  }

  function TopBug1(k: int): MergeState<int>
  {
    MergeState([], [[k + 4], [k + 2]], [[k + 1]], 1, 1, 1, 0, 1, Top, Some([k + 3]), Some([k + 2]), false)
  }

  function TopBug2(k: int): MergeState<int>
  {
    MergeState([], [[k + 4], [k + 3], [k + 2]], [], 1, 2, 1, 2, 1, Bot, Some([k + 1]), Some([k + 3]), false)
  }

  function TopBug3(k: int): MergeState<int>
  {
    MergeState([], [[k + 4], [k + 3], [k + 1], [k + 2]], [], 1, 2, 1, 2, 1, Bot, Some([k + 1]), Some([k + 3]), true)
  }

  function TopFix2(k: int): MergeState<int>
  {
    MergeState([], [[k + 4], [k + 3], [k + 2]], [], 2, 2, 2, 2, 2, Bot, Some([k + 1]), Some([k + 2]), false)
  }

  function TopFix3(k: int): MergeState<int>
  {
    MergeState([], [[k + 4], [k + 3], [k + 2], [k + 1]], [], 2, 3, 2, 2, 2, Bot, Some([k + 1]), Some([k + 2]), true)
  }

  lemma TopBugStart(k: int)
    ensures Init(TopBugLists(k), 1) == Success(TopBug0(k))
  {
    InitSorted(TopBugLists(k));
    assert TopBugLists(k)[..|TopBugLists(k)| - 2] == TopBug0(k).documentLists;
  }

  lemma TopBugOrdered(k: int)
    ensures Ordered(Id, TopBug0(k))
  {
  }

  lemma TopBugStep1(k: int)
    ensures Leads(Id, AsWritten, TopBug0(k), Less, TopBug1(k))
  {
  }

  lemma TopBugStep2(k: int)
    ensures Leads(Id, AsWritten, TopBug1(k), Greater, TopBug2(k))
  {
    assert Splice([[k + 4], [k + 2]], 1, [k + 3]) == [[k + 4], [k + 3], [k + 2]];
  }

  lemma TopBugStep3(k: int)
    ensures Leads(Id, AsWritten, TopBug2(k), Less, TopBug3(k))
  {
    assert Splice([[k + 4], [k + 3], [k + 2]], 2, [k + 1]) == [[k + 4], [k + 3], [k + 1], [k + 2]];
  }

  lemma TopFixStep1(k: int)
    ensures Leads(Id, Corrected, TopBug0(k), Less, TopBug1(k))
  {
  }

  lemma TopFixStep2(k: int)
    ensures Leads(Id, Corrected, TopBug1(k), Greater, TopFix2(k))
  {
    assert Splice([[k + 4], [k + 2]], 1, [k + 3]) == [[k + 4], [k + 3], [k + 2]];
  }

  lemma TopFixStep3(k: int)
    ensures Leads(Id, Corrected, TopFix2(k), Less, TopFix3(k))
  {
    assert Splice([[k + 4], [k + 3], [k + 2]], 3, [k + 1]) == [[k + 4], [k + 3], [k + 2], [k + 1]];
  }

  lemma TopBugRun(k: int)
    ensures Run(AsWritten, TopBug0(k), [Less, Greater, Less]) == Success(TopBug3(k))
    ensures Consistent(Id, AsWritten, TopBug0(k), [Less, Greater, Less])
  {
    TopBugStep1(k);
    TopBugStep2(k);
    TopBugStep3(k);
    var states, ds := [TopBug0(k), TopBug1(k), TopBug2(k), TopBug3(k)], [Less, Greater, Less];
    forall i | 0 <= i < 3
      ensures Leads(Id, AsWritten, states[i], ds[i], states[i + 1])
    {
      assert i == 0 || i == 1 || i == 2;
    }
    Trace(Id, AsWritten, states, ds);
  }

  /**
   * `[k + 3]` is placed from the front between `[k + 4]` and `[k + 2]`, but
   * `list_upper` still points at `[k + 3]`, so `[k + 1]`, drawn from the back, is
   * searched among `[k + 4], [k + 3]` only and lands before `[k + 2]`: every judgement
   * agrees with the ranks, yet `main_list` ends out of order.
   */
  lemma TopPlacementBreaksOrder(k: int)
    ensures var s := Init(TopBugLists(k), 1).value;
      Ordered(Id, s) && Consistent(Id, AsWritten, s, [Less, Greater, Less])
      && Run(AsWritten, s, [Less, Greater, Less]) == Success(TopBug3(k))
      && TopBug3(k).over && TopBug3(k).mainList == [[k + 4], [k + 3], [k + 1], [k + 2]]
      && !Descending(Id, TopBug3(k).mainList)
  {
    TopBugStart(k);
    TopBugOrdered(k);
    TopBugRun(k);
    assert Rank(Id, TopBug3(k).mainList[2]) < Rank(Id, TopBug3(k).mainList[3]);
  }

  lemma TopFixRun(k: int)
    ensures Run(Corrected, TopBug0(k), [Less, Greater, Less]) == Success(TopFix3(k))
    ensures Consistent(Id, Corrected, TopBug0(k), [Less, Greater, Less])
  {
    TopFixStep1(k);
    TopFixStep2(k);
    TopFixStep3(k);
    var states, ds := [TopBug0(k), TopBug1(k), TopFix2(k), TopFix3(k)], [Less, Greater, Less];
    forall i | 0 <= i < 3
      ensures Leads(Id, Corrected, states[i], ds[i], states[i + 1])
    {
      assert i == 0 || i == 1 || i == 2;
    }
    Trace(Id, Corrected, states, ds);
  }

  /** The same judgements on the corrected merge leave `main_list` in order. */
  lemma TopPlacementCorrected(k: int)
    ensures var s := Init(TopBugLists(k), 1).value;
      Consistent(Id, Corrected, s, [Less, Greater, Less])
      && Run(Corrected, s, [Less, Greater, Less]) == Success(TopFix3(k))
      && TopFix3(k).over && TopFix3(k).mainList == [[k + 4], [k + 3], [k + 2], [k + 1]]
  {
    TopBugStart(k);
    TopFixRun(k);
  }

  /** A main list `[k + 5], [k + 3], [k + 1]`, a list `[k + 3], [k + 2]` and a pending list `[k + 9]`. */
  function StaleLists(k: int): seq<seq<seq<int>>>
  {
    [[[k + 9]], [[k + 3], [k + 2]], [[k + 5], [k + 3], [k + 1]]]
  }

  // The states of the merge of `StaleLists`: a tie, then greater until the end.

  function Stale0(k: int): MergeState<int>
  {
    MergeState([[[k + 9]]], [[k + 5], [k + 3], [k + 1]], [[k + 2]], 2, 0, 2, 0, 1, Top, Some([k + 3]), Some([k + 3]), false)
  }

  function Stale1(k: int): MergeState<int>
  {
    MergeState([[[k + 9]]], [[k + 5], [k + 3, k + 3], [k + 1]], [], 2, 2, 2, 2, 2, Bot, Some([k + 2]), Some([k + 1]), false)
  }

  function Stale2(k: int): MergeState<int>
  {
    MergeState([], [[k + 5], [k + 3, k + 3], [k + 2], [k + 1]], [], 1, 2, 1, 2, 1, Top, Some([k + 9]), Some([k + 3, k + 3]), false)
  }

  function Stale3(k: int): MergeState<int>
  {
    MergeState([], [[k + 5], [k + 3, k + 3], [k + 9], [k + 2], [k + 1]], [], 0, 2, 1, 3, 1, Top, Some([k + 9]), Some([k + 3, k + 3]), true)
  }

  function StaleFix2(k: int): MergeState<int>
  {
    MergeState([], [[k + 5], [k + 3, k + 3], [k + 2], [k + 1]], [], 3, 0, 3, 0, 1, Top, Some([k + 9]), Some([k + 3, k + 3]), false)
  }

  function StaleFix3(k: int): MergeState<int>
  {
    MergeState([], [[k + 5], [k + 3, k + 3], [k + 2], [k + 1]], [], 0, 0, 3, 0, 0, Top, Some([k + 9]), Some([k + 5]), false)
  }

  function StaleFix4(k: int): MergeState<int>
  {
    MergeState([], [[k + 9], [k + 5], [k + 3, k + 3], [k + 2], [k + 1]], [], -1, 0, 4, 1, 0, Top, Some([k + 9]), Some([k + 5]), true)
  }

  lemma StaleStart(k: int)
    ensures Init(StaleLists(k), 1) == Success(Stale0(k))
  {
    InitSorted(StaleLists(k));
    assert StaleLists(k)[..|StaleLists(k)| - 2] == Stale0(k).documentLists;
  }

  lemma StaleOrdered(k: int)
    ensures Ordered(Id, Stale0(k))
  {
  }

  lemma StaleStep1(k: int)
    ensures Leads(Id, AsWritten, Stale0(k), Tie, Stale1(k))
  {
    assert [k + 3] + [k + 3] == [k + 3, k + 3];
    assert [[k + 5], [k + 3], [k + 1]][1 := [k + 3, k + 3]] == [[k + 5], [k + 3, k + 3], [k + 1]];
  }

  lemma StaleStep2(k: int)
    ensures Leads(Id, AsWritten, Stale1(k), Greater, Stale2(k))
  {
    assert Splice([[k + 5], [k + 3, k + 3], [k + 1]], 2, [k + 2]) == [[k + 5], [k + 3, k + 3], [k + 2], [k + 1]];
  }

  lemma StaleStep3(k: int)
    ensures Leads(Id, AsWritten, Stale2(k), Greater, Stale3(k))
  {
    assert Splice([[k + 5], [k + 3, k + 3], [k + 2], [k + 1]], 2, [k + 9]) == [[k + 5], [k + 3, k + 3], [k + 9], [k + 2], [k + 1]];
  }

  lemma StaleFixStep1(k: int)
    ensures Leads(Id, Corrected, Stale0(k), Tie, Stale1(k))
  {
    assert [k + 3] + [k + 3] == [k + 3, k + 3];
    assert [[k + 5], [k + 3], [k + 1]][1 := [k + 3, k + 3]] == [[k + 5], [k + 3, k + 3], [k + 1]];
  }

  lemma StaleFixStep2(k: int)
    ensures Leads(Id, Corrected, Stale1(k), Greater, StaleFix2(k))
  {
    assert Splice([[k + 5], [k + 3, k + 3], [k + 1]], 2, [k + 2]) == [[k + 5], [k + 3, k + 3], [k + 2], [k + 1]];
  }

  lemma StaleFixStep3(k: int)
    ensures Leads(Id, Corrected, StaleFix2(k), Greater, StaleFix3(k))
  {
  }

  lemma StaleFixStep4(k: int)
    ensures Leads(Id, Corrected, StaleFix3(k), Greater, StaleFix4(k))
  {
    assert Splice([[k + 5], [k + 3, k + 3], [k + 2], [k + 1]], 0, [k + 9]) == [[k + 9], [k + 5], [k + 3, k + 3], [k + 2], [k + 1]];
  }

  /** `[k + 9]` is searched below `[k + 5]`, which it outranks. */
  lemma StaleUnordered(k: int)
    ensures !Ordered(Id, Stale2(k))
  {
    assert Rank(Id, Stale2(k).mainList[0]) < Rank(Id, Stale2(k).currentSortElement.value);
  }

  lemma StaleRun(k: int)
    ensures Run(AsWritten, Stale0(k), [Tie, Greater, Greater]) == Success(Stale3(k))
    ensures Consistent(Id, AsWritten, Stale0(k), [Tie, Greater, Greater])
  {
    StaleStep1(k);
    StaleStep2(k);
    StaleStep3(k);
    var states, ds := [Stale0(k), Stale1(k), Stale2(k), Stale3(k)], [Tie, Greater, Greater];
    forall i | 0 <= i < 3
      ensures Leads(Id, AsWritten, states[i], ds[i], states[i + 1])
    {
      assert i == 0 || i == 1 || i == 2;
    }
    Trace(Id, AsWritten, states, ds);
  }

  /**
   * After `[k + 2]` is placed from the back, `[k + 9]` comes from a fresh list and
   * is searched in the stale window `2..1` instead of the whole of
   * `main_list`: the step that refills breaks the invariant, and `[k + 9]` ends
   * below `[k + 3, k + 3]`, though every judgement agrees with the ranks.
   */
  lemma StaleWindowBreaksOrder(k: int)
    ensures var s := Init(StaleLists(k), 1).value;
      Ordered(Id, s) && Consistent(Id, AsWritten, s, [Tie, Greater, Greater])
      && Run(AsWritten, s, [Tie, Greater, Greater]) == Success(Stale3(k))
      && Refills(Stale1(k)) && Stale1(k).mode == Bot && !Ordered(Id, Stale2(k))
      && Stale3(k).over && Stale3(k).mainList == [[k + 5], [k + 3, k + 3], [k + 9], [k + 2], [k + 1]]
      && !Descending(Id, Stale3(k).mainList)
  {
    StaleStart(k);
    StaleOrdered(k);
    StaleRun(k);
    StaleUnordered(k);
    assert Rank(Id, Stale3(k).mainList[1]) < Rank(Id, Stale3(k).mainList[2]);
  }

  lemma StaleFixRun(k: int)
    ensures Run(Corrected, Stale0(k), [Tie, Greater, Greater, Greater]) == Success(StaleFix4(k))
    ensures Consistent(Id, Corrected, Stale0(k), [Tie, Greater, Greater, Greater])
  {
    StaleFixStep1(k);
    StaleFixStep2(k);
    StaleFixStep3(k);
    StaleFixStep4(k);
    var states, ds := [Stale0(k), Stale1(k), StaleFix2(k), StaleFix3(k), StaleFix4(k)], [Tie, Greater, Greater, Greater];
    forall i | 0 <= i < 4
      ensures Leads(Id, Corrected, states[i], ds[i], states[i + 1])
    {
      assert i == 0 || i == 1 || i == 2 || i == 3;
    }
    Trace(Id, Corrected, states, ds);
  }

  /** The corrected merge searches the whole of `main_list` for `[k + 9]` and places it first. */
  lemma StaleWindowCorrected(k: int)
    ensures var s := Init(StaleLists(k), 1).value;
      Consistent(Id, Corrected, s, [Tie, Greater, Greater, Greater])
      && Run(Corrected, s, [Tie, Greater, Greater, Greater]) == Success(StaleFix4(k))
      && StaleFix4(k).over && StaleFix4(k).mainList == [[k + 9], [k + 5], [k + 3, k + 3], [k + 2], [k + 1]]
  {
    StaleStart(k);
    StaleFixRun(k);
  }
}
