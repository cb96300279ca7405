/**
 * The category rotation handed to a new rater: eight category numbers,
 * starting at a position that depends on how many users already exist.
 */
module CategoryList {

  /** Number of categories each rater works through. */
  const CategoryCount := 8

  /**
   * JavaScript's `a % 8`: the remainder of the truncating division, which
   * takes the sign of the dividend (`-1 % 8` is `-1`), unlike Dafny's `%`.
   */
  function JsRem(a: int): (r: int)
    ensures (a - r) % CategoryCount == 0
    ensures a >= 0 ==> 0 <= r < CategoryCount && r == a % CategoryCount
    ensures a < 0 ==> -CategoryCount < r <= 0
    ensures a < 0 ==> r == if a % CategoryCount == 0 then 0 else a % CategoryCount - CategoryCount
  {
    if a >= 0 then a % CategoryCount else -((-a) % CategoryCount)
  }

  /** Entry `k` of the list built for `numberOfUsers`. */
  function Category(numberOfUsers: int, k: int): int
  {
    JsRem(numberOfUsers + k - 1) + 1
  }

  /** The whole list, as a reference for the loop below. */
  function Categories(numberOfUsers: int): (r: seq<int>)
    ensures |r| == CategoryCount
  {
    seq(CategoryCount, k => Category(numberOfUsers, k))
  }

  /** The numbers 1..8 in order. */
  function OneToEight(): (r: seq<int>)
    ensures |r| == CategoryCount
    ensures forall k :: 0 <= k < CategoryCount ==> r[k] == k + 1
  {
    seq(CategoryCount, k => k + 1)
  }

  /** `s` rotated left by `r` places. */
  function Rotate(s: seq<int>, r: nat): (t: seq<int>)
    requires r <= |s|
    ensures |t| == |s|
    ensures multiset(t) == multiset(s)
  {
    assert s == s[..r] + s[r..];
    s[r..] + s[..r]
  }

  /** `get_category_list`: a counting loop pushing one category per step. */
  method GetCategoryList(numberOfUsers: int) returns (list: seq<int>)
    ensures |list| == CategoryCount
    ensures forall k :: 0 <= k < CategoryCount ==> list[k] == JsRem(numberOfUsers + k - 1) + 1
    ensures list == Categories(numberOfUsers)
  {
    list := [];
    var i := numberOfUsers;
    while i < numberOfUsers + CategoryCount
      invariant numberOfUsers <= i <= numberOfUsers + CategoryCount
      invariant |list| == i - numberOfUsers
      invariant forall k :: 0 <= k < |list| ==> list[k] == Category(numberOfUsers, k)
    {
      list := list + [JsRem(i - 1) + 1];
      i := i + 1;
    }
  }

  /**
   * For a positive user count the list is 1..8 rotated so that it starts at
   * `((n - 1) mod 8) + 1`; in particular it holds each of 1..8 exactly once.
   */
  lemma CategoriesRotate(n: int)
    requires n >= 1
    ensures Categories(n)[0] == (n - 1) % CategoryCount + 1
    ensures Categories(n) == Rotate(OneToEight(), (n - 1) % CategoryCount)
    ensures multiset(Categories(n)) == multiset(OneToEight())
  {
    var r := (n - 1) % CategoryCount;
    var rot := Rotate(OneToEight(), r);
    forall k | 0 <= k < CategoryCount
      ensures Categories(n)[k] == rot[k]
    {
      assert (n - 1 + k) % CategoryCount == (r + k) % CategoryCount;
      if r + k < CategoryCount {
        assert rot[k] == OneToEight()[r + k];
      } else {
        assert rot[k] == OneToEight()[r + k - CategoryCount];
      }
    }
  }

  /** Users `n` and `n + 8` get the same list. */
  lemma CategoriesPeriodic(n: int)
    requires n >= 1
    ensures Categories(n + CategoryCount) == Categories(n)
  {
    forall k | 0 <= k < CategoryCount
      ensures Categories(n + CategoryCount)[k] == Categories(n)[k]
    {
      assert (n + CategoryCount + k - 1) % CategoryCount == (n + k - 1) % CategoryCount;
    }
  }

  /**
   * With no users yet the first entry is `(-1 % 8) + 1 == 0`, so the list is
   * 0..7: category 0 does not exist and category 8 is never handed out.
   */
  lemma CategoriesForZeroUsers()
    ensures Categories(0) == [0, 1, 2, 3, 4, 5, 6, 7]
    ensures CategoryCount !in Categories(0)
  {
    assert JsRem(-1) == -1;
    forall k | 1 <= k < CategoryCount
      ensures Categories(0)[k] == k
    {
      assert JsRem(k - 1) == k - 1;
    }
  }
}
