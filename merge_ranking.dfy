/**
 * Ranks and the ordering invariant of the list merger. The judge is
 * modelled as a ranking: every id has an integer key, a group ranks by its
 * first id, and a consistent judge answers greater, equal or less exactly as
 * the ranks compare.
 */
module MergeRanking {
  import opened Wrappers
  import opened MergeSpec

  /** A group ranks by its first id, as the harness compares `[0]`. */
  function Rank<T>(key: T -> int, g: seq<T>): int
  {
    if g == [] then 0 else key(g[0])
  }

  /** A non-empty group whose ids all share one key. */
  predicate Uniform<T>(key: T -> int, g: seq<T>)
  {
    g != [] && forall k :: 0 <= k < |g| ==> key(g[k]) == key(g[0])
  }

  /** Uniform groups in non-increasing rank. */
  predicate Descending<T>(key: T -> int, gs: seq<seq<T>>)
  {
    (forall i :: 0 <= i < |gs| ==> Uniform(key, gs[i]))
    && (forall i, j :: 0 <= i < j < |gs| ==> Rank(key, gs[j]) <= Rank(key, gs[i]))
  }

  /** `x` ranks at least as high as every group of `gs`. */
  predicate AtLeast<T>(key: T -> int, x: seq<T>, gs: seq<seq<T>>)
  {
    forall k :: 0 <= k < |gs| ==> Rank(key, gs[k]) <= Rank(key, x)
  }

  /** `x` ranks at most as high as every group of `gs`. */
  predicate AtMost<T>(key: T -> int, x: seq<T>, gs: seq<seq<T>>)
  {
    forall k :: 0 <= k < |gs| ==> Rank(key, x) <= Rank(key, gs[k])
  }

  /** Every list is descending. */
  predicate ListsDescending<T>(key: T -> int, s: MergeState<T>)
  {
    Descending(key, s.mainList) && Descending(key, s.sortList)
    && forall i :: 0 <= i < |s.documentLists| ==> Descending(key, s.documentLists[i])
  }

  /** The outer window: what lies before it outranks, and what lies after it is outranked by, all of `sort_list`. */
  predicate Window<T>(key: T -> int, s: MergeState<T>)
  {
    0 <= s.listLower <= |s.mainList| && -1 <= s.listUpper < |s.mainList|
    && (forall i :: 0 <= i < s.listLower ==> AtLeast(key, s.mainList[i], s.sortList))
    && (forall i :: s.listUpper < i < |s.mainList| ==> AtMost(key, s.mainList[i], s.sortList))
  }

  /** The drawn group is the highest (`Top`) or lowest (`Bot`) of what is left of `sort_list`. */
  predicate Drawn<T>(key: T -> int, s: MergeState<T>)
  {
    s.currentSortElement.Some? && Uniform(key, s.currentSortElement.value)
    && (s.mode == Top ==> AtLeast(key, s.currentSortElement.value, s.sortList))
    && (s.mode == Bot ==> AtMost(key, s.currentSortElement.value, s.sortList))
  }

  /** The search window: the drawn group belongs at or after `current_lower` and at or before `current_upper + 1`. */
  predicate Bracketed<T>(key: T -> int, s: MergeState<T>)
  {
    s.currentSortElement.Some? && 0 <= s.currentLower <= |s.mainList|
    && (forall i :: 0 <= i < s.currentLower ==> Rank(key, s.currentSortElement.value) <= Rank(key, s.mainList[i]))
    && (forall i :: 0 <= i < |s.mainList| && s.currentUpper < i ==>
          Rank(key, s.mainList[i]) <= Rank(key, s.currentSortElement.value))
  }

  /**
   * The ordering invariant of the corrected merge. While the merge is not
   * over, `middle` points into `main_list`, so there is always a group to
   * compare with; a back-drawn group is only searched once the front group
   * of its list has been placed, which leaves `list_lower` at 1 or more.
   */
  predicate Ordered<T(==)>(key: T -> int, s: MergeState<T>)
  {
    ListsDescending(key, s) && Window(key, s)
    && (!s.over ==>
          Drawn(key, s) && Bracketed(key, s) && s.currentUpper < |s.mainList|
          && s.middle == MiddleIndex(s.currentUpper, s.currentLower) && 0 <= s.middle < |s.mainList|
          && s.currentComparisonElement == At(s.mainList, s.middle)
          && (s.mode == Bot ==> s.listLower >= 1))
  }

  /** A judgement consistent with the ranks; the judge needs a group to compare with. */
  predicate Judged<T>(key: T -> int, s: MergeState<T>, d: Decision)
  {
    s.currentSortElement.Some? && s.currentComparisonElement.Some?
    && var x := Rank(key, s.currentSortElement.value);
    var y := Rank(key, s.currentComparisonElement.value);
    match d
    case Greater => x > y
    case Tie => x == y
    case Less => x < y
  }
}
