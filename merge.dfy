/**
 * The `Merge` class: its fields are updated in place by every decision
 * method, as in the source. Each method is proved to leave the instance in
 * the state the corresponding function of `MergeSpec` computes, so every
 * property proved there holds of the instance.
 */
module Merging {
  import opened Wrappers
  import opened MergeSpec

  class Merge<T> {
    var documentLists: seq<seq<seq<T>>>
    var mainList: seq<seq<T>>
    var sortList: seq<seq<T>>
    var currentUpper: int
    var currentLower: int
    var listUpper: int
    var listLower: int
    var middle: int
    var mode: Mode
    var currentSortElement: Option<seq<T>>
    var currentComparisonElement: Option<seq<T>>
    var over: bool

    /** The instance's fields as a state value. */
    function Snapshot(): MergeState<T>
      reads this
    {
      MergeState(documentLists, mainList, sortList, currentUpper, currentLower, listUpper, listLower,
                 middle, mode, currentSortElement, currentComparisonElement, over)
    }

    /**
     * The constructor. A Dafny constructor cannot throw, so the allocation
     * and the failure on fewer than two batches are reported through a result.
     */
    static method Create(documentLists: seq<seq<seq<T>>>, groupBy: int) returns (r: Result<Merge<T>>)
      requires groupBy >= 1
      ensures r.Failure? <==> Init(documentLists, groupBy).Failure?
      ensures r.Success? ==> fresh(r.value)
      ensures r.Success? ==> r.value.Snapshot() == Init(documentLists, groupBy).value
    {
      var lists := SortedBatches(documentLists, groupBy);
      if |lists| < 2 {
        return Failure(TypeError("main_list or sort_list is undefined"));
      }
      var m := new Merge.Start(lists);
      r := Success(m);
    }

    /** The constructor once the batches are sorted: the two pops from the back, then the first shift from `sort_list`. */
    constructor Start(lists: seq<seq<seq<T>>>)
      requires |lists| >= 2
      ensures Snapshot() == MergeSpec.Start(lists)
    {
      var main := lists[|lists| - 1];
      var sort := lists[|lists| - 2];
      var upper := |main| - 1;
      var mid := MiddleIndex(upper, 0);
      documentLists, mainList := lists[..|lists| - 2], main;
      currentUpper, currentLower := upper, 0;
      listUpper, listLower := upper, 0;
      middle, mode := mid, Top;
      currentSortElement := At(sort, 0);
      sortList := if sort == [] then [] else sort[1..];
      currentComparisonElement := At(main, mid);
      over := false;
    }

    /** `fromObject`: the constructor on the object's pending lists, then every other field copied. */
    static method FromObject(o: MergeObject<T>) returns (r: Result<Merge<T>>)
      ensures r.Failure? <==> MergeSpec.FromObject(o).Failure?
      ensures r.Success? ==> fresh(r.value) && r.value.Snapshot() == MergeSpec.FromObject(o).value
    {
      var created := Create(o.documentLists, 1);
      if created.Failure? {
        return Failure(created.error);
      }
      var m := created.value;
      m.Populate(o);
      return Success(m);
    }

    /** The copies of `fromObject`: every saved field but `document_lists` is overwritten. */
    method Populate(o: MergeObject<T>)
      modifies this
      ensures Snapshot() == MergeState(old(documentLists), o.mainList, o.sortList, o.currentUpper, o.currentLower,
                                       o.listUpper, o.listLower, o.middle, o.mode, o.currentSortElement,
                                       o.currentComparisonElement, old(over))
    {
      mainList := o.mainList;
      sortList := o.sortList;
      currentUpper := o.currentUpper;
      currentLower := o.currentLower;
      listUpper := o.listUpper;
      listLower := o.listLower;
      middle := o.middle;
      mode := o.mode;
      currentSortElement := o.currentSortElement;
      currentComparisonElement := o.currentComparisonElement;
    }

    /** `#next`. */
    method Next()
      modifies this
      ensures Snapshot() == MergeSpec.Next(old(Snapshot()))
    {
      middle := MiddleIndex(currentUpper, currentLower);
      currentComparisonElement := At(mainList, middle);
    }

    /** `#next_sort_element`. */
    method NextSortElement()
      modifies this
      ensures Snapshot() == MergeSpec.NextSortElement(old(Snapshot()))
    {
      ghost var s := Snapshot();
      if |sortList| == 0 && |documentLists| != 0 {
        Refill();
      }
      ghost var s1 := if Refills(s) then Refilled(s) else s;
      assert Snapshot() == s1;
      if |sortList| != 0 {
        Draw();
        ghost var s2 := Snapshot();
        currentUpper := listUpper;
        currentLower := listLower;
        assert Snapshot() == s2.(currentUpper := s2.listUpper, currentLower := s2.listLower);
        // The two lines that follow in the source are the body of `#next`.
        Next();
      } else {
        over := true;
        assert Snapshot() == s1.(over := true);
      }
    }

    /** The refill of `#next_sort_element`: pop a fresh `sort_list` and search the whole of `main_list`. */
    method Refill()
      requires |sortList| == 0 && |documentLists| != 0
      modifies this
      ensures Snapshot() == Refilled(old(Snapshot()))
    {
      sortList := Last(documentLists);
      documentLists := documentLists[..|documentLists| - 1];
      currentUpper := |mainList| - 1;
      currentLower := 0;
    }

    /** The draw of `#next_sort_element`: `pop` on `Top`, `shift` on `Bot`, and the mode flips. */
    method Draw()
      requires |sortList| != 0
      modifies this
      ensures Snapshot() == Take(old(Snapshot()))
    {
      if mode == Top {
        currentSortElement := Some(Last(sortList));
        sortList := sortList[..|sortList| - 1];
        mode := Bot;
      } else {
        currentSortElement := Some(sortList[0]);
        sortList := sortList[1..];
        mode := Top;
      }
    }

    /** `greater_than`. */
    method GreaterThan()
      requires currentSortElement.Some?
      modifies this
      ensures Snapshot() == MergeSpec.GreaterThan(old(Snapshot()))
    {
      ghost var s := Snapshot();
      currentUpper := middle - 1;
      assert Snapshot() == s.(currentUpper := s.middle - 1);
      if currentUpper < currentLower {
        Place();
      } else {
        Next();
      }
    }

    /** The placement shared by `greater_than` and `less_than` once the window is empty. */
    method Place()
      requires currentSortElement.Some?
      modifies this
      ensures Snapshot() == MergeSpec.Place(old(Snapshot()))
    {
      ghost var s := Snapshot();
      mainList := Splice(mainList, currentLower, currentSortElement.value);
      if mode == Top {
        listLower := currentLower + 1;
      } else {
        listUpper := currentLower - 1;
      }
      assert Snapshot() == Spliced(s);
      NextSortElement();
    }

    /** `equal`; `ok` is false where the source throws, and then nothing has changed. */
    method Equal() returns (ok: bool)
      requires currentSortElement.Some?
      modifies this
      ensures ok == MergeSpec.Equal(old(Snapshot())).Success?
      ensures Snapshot() == if ok then MergeSpec.Equal(old(Snapshot())).value else old(Snapshot())
    {
      if !(0 <= middle < |mainList|) {
        return false;
      }
      ghost var s := Snapshot();
      mainList := mainList[middle := mainList[middle] + currentSortElement.value];
      if mode == Top {
        listLower := middle + 1;
      } else {
        listUpper := middle - 1;
      }
      ghost var main := s.mainList[s.middle := s.mainList[s.middle] + s.currentSortElement.value];
      assert Snapshot() == if s.mode == Top then s.(mainList := main, listLower := s.middle + 1)
        else s.(mainList := main, listUpper := s.middle - 1);
      NextSortElement();
      ok := true;
    }

    /** `less_than`. */
    method LessThan()
      requires currentSortElement.Some?
      modifies this
      ensures Snapshot() == MergeSpec.LessThan(old(Snapshot()))
    {
      ghost var s := Snapshot();
      currentLower := middle + 1;
      assert Snapshot() == s.(currentLower := s.middle + 1);
      if currentLower > currentUpper {
        Place();
      } else {
        Next();
      }
    }
  }
}
