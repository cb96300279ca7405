/** The pairing step of the database seeding script. */
module FillDatabase {
  import opened Wrappers

  /** A pair as the script builds it: two items reads, either of which may be `undefined`. */
  type Pair<T> = (Option<T>, Option<T>)

  /** `p` joins `x` and `y`, in either orientation. */
  predicate Joins<T(==)>(p: Pair<T>, x: T, y: T)
  {
    p == (Some(x), Some(y)) || p == (Some(y), Some(x))
  }

  /** Adjacent pairs closed by the pair of the ends join every element to its cyclic successor. */
  lemma CyclicJoins<T>(items: seq<T>, pairs: seq<Pair<T>>)
    requires |items| >= 1 && |pairs| == |items|
    requires forall i :: 0 <= i < |items| - 1 ==> pairs[i] == (Some(items[i]), Some(items[i + 1]))
    requires pairs[|items| - 1] == (Some(items[0]), Some(items[|items| - 1]))
    ensures forall k :: 0 <= k < |items| ==> Joins(pairs[k], items[k], items[(k + 1) % |items|])
  {
    forall k | 0 <= k < |items|
      ensures Joins(pairs[k], items[k], items[(k + 1) % |items|])
    {
      if k < |items| - 1 {
        assert (k + 1) % |items| == k + 1;
      } else {
        assert (k + 1) % |items| == 0;
      }
    }
  }

  /**
   * `generate_pairs`: each element paired with its successor, then one
   * closing pair of the first and the last element. The input is a value and
   * is left as it was.
   */
  method GeneratePairs<T(==)>(items: seq<T>) returns (pairs: seq<Pair<T>>)
    ensures |pairs| == if |items| == 0 then 1 else |items|
    ensures forall i :: 0 <= i < |items| - 1 ==> pairs[i] == (Some(items[i]), Some(items[i + 1]))
    ensures pairs[|pairs| - 1] == (At(items, 0), At(items, |items| - 1))
    ensures |items| == 0 ==> pairs == [(None, None)]
    ensures forall k :: 0 <= k < |items| ==> Joins(pairs[k], items[k], items[(k + 1) % |items|])
  {
    pairs := [];
    var i := 1;
    while i < |items|
      invariant 1 <= i <= if |items| == 0 then 1 else |items|
      invariant |pairs| == i - 1
      invariant forall k :: 0 <= k < i - 1 ==> pairs[k] == (Some(items[k]), Some(items[k + 1]))
    {
      pairs := pairs + [(At(items, i - 1), At(items, i))];
      i := i + 1;
    }
    pairs := pairs + [(At(items, 0), At(items, |items| - 1))];
    if |items| > 0 {
      CyclicJoins(items, pairs);
    }
  }
}
