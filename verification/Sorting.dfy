/** The stable sort the program relies on when it orders records by one of their fields. */
module Sorting {

  ghost predicate SortedBy<T>(xs: seq<T>, key: T -> int) {
    forall i, j :: 0 <= i <= j < |xs| ==> key(xs[i]) <= key(xs[j])
  }

  /** Inserts after every element whose key is not larger, which keeps equal keys in order. */
  function Insert<T>(xs: seq<T>, x: T, key: T -> int): (r: seq<T>)
    ensures multiset(r) == multiset(xs) + multiset{x}
  {
    if xs == [] || key(xs[|xs| - 1]) <= key(x) then
      xs + [x]
    else
      assert xs == xs[..|xs| - 1] + [xs[|xs| - 1]];
      Insert(xs[..|xs| - 1], x, key) + [xs[|xs| - 1]]
  }

  function StableSort<T>(xs: seq<T>, key: T -> int): (r: seq<T>)
    ensures multiset(r) == multiset(xs)
  {
    if xs == [] then []
    else
      assert xs == xs[..|xs| - 1] + [xs[|xs| - 1]];
      Insert(StableSort(xs[..|xs| - 1], key), xs[|xs| - 1], key)
  }

  lemma {:induction false} InsertLast<T>(xs: seq<T>, x: T, key: T -> int)
    requires xs != [] ==> key(xs[|xs| - 1]) <= key(x)
    ensures Insert(xs, x, key) == xs + [x]
  {
  }

  lemma {:induction false} SortedUpToTheLast<T>(xs: seq<T>, key: T -> int)
    requires SortedBy(xs, key) && xs != []
    ensures SortedBy(xs[..|xs| - 1], key)
    ensures forall y <- xs :: key(y) <= key(xs[|xs| - 1])
  {
  }

  lemma {:induction false} StableSortOfSorted<T>(xs: seq<T>, key: T -> int)
    requires SortedBy(xs, key)
    ensures StableSort(xs, key) == xs
    decreases |xs|
  {
    if xs != [] {
      var init, last := xs[..|xs| - 1], xs[|xs| - 1];
      SortedUpToTheLast(xs, key);
      hide SortedBy, Insert;
      assert xs == init + [last];
      if init != [] {
        assert init[|init| - 1] in xs;
      }
      StableSortOfSorted(init, key);
      InsertLast(init, last, key);
    }
  }

  lemma {:induction false} AppendSorts<T>(xs: seq<T>, x: T, key: T -> int)
    requires SortedBy(xs, key) && forall y <- xs :: key(y) <= key(x)
    ensures SortedBy(xs + [x], key)
  {
  }

  lemma {:induction false} InsertMembers<T>(xs: seq<T>, x: T, key: T -> int)
    ensures forall y <- Insert(xs, x, key) :: y == x || y in xs
  {
    forall y <- Insert(xs, x, key) ensures y == x || y in xs {
      assert y in multiset(Insert(xs, x, key));
    }
  }

  lemma {:induction false} InsertSorts<T>(xs: seq<T>, x: T, key: T -> int)
    requires SortedBy(xs, key)
    ensures SortedBy(Insert(xs, x, key), key)
    decreases |xs|
  {
    if xs == [] {
      AppendSorts(xs, x, key);
    } else {
      var init, last := xs[..|xs| - 1], xs[|xs| - 1];
      SortedUpToTheLast(xs, key);
      hide SortedBy;
      if key(last) <= key(x) {
        AppendSorts(xs, x, key);
      } else {
        InsertSorts(init, x, key);
        InsertMembers(init, x, key);
        AppendSorts(Insert(init, x, key), last, key);
      }
    }
  }

  lemma {:induction false} StableSortSorts<T>(xs: seq<T>, key: T -> int)
    ensures SortedBy(StableSort(xs, key), key)
    decreases |xs|
  {
    hide SortedBy, Insert;
    if xs == [] {
      NothingIsSorted(xs, key);
    } else {
      StableSortSorts(xs[..|xs| - 1], key);
      InsertSorts(StableSort(xs[..|xs| - 1], key), xs[|xs| - 1], key);
    }
  }

  lemma {:induction false} NothingIsSorted<T>(xs: seq<T>, key: T -> int)
    requires xs == []
    ensures SortedBy(StableSort(xs, key), key)
  {
  }
}
