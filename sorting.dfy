// The stable sort Python's sorted(xs, key=...) performs when the key is a pair of
// integers compared lexicographically, as sort_etypes uses it. Written as an
// insertion sort, which is stable, so it agrees with sorted() on every input.
module Sorting {

  /** Tuple comparison (a0, a1) <= (b0, b1). */
  predicate KeyLe(a: (int, int), b: (int, int))
  {
    a.0 < b.0 || (a.0 == b.0 && a.1 <= b.1)
  }

  /** Tuple comparison (a0, a1) < (b0, b1). */
  predicate KeyLt(a: (int, int), b: (int, int))
  {
    a.0 < b.0 || (a.0 == b.0 && a.1 < b.1)
  }

  predicate SortedBy<T>(xs: seq<T>, key: T -> (int, int))
  {
    forall i, j :: 0 <= i < j < |xs| ==> KeyLe(key(xs[i]), key(xs[j]))
  }

  /** Keys strictly ascending: sorted with no two equal keys. */
  predicate StrictlySortedBy<T>(xs: seq<T>, key: T -> (int, int))
  {
    forall i, j :: 0 <= i < j < |xs| ==> KeyLt(key(xs[i]), key(xs[j]))
  }

  /** Inserts x after every element whose key is not greater than x's. */
  function InsertBy<T>(x: T, xs: seq<T>, key: T -> (int, int)): (r: seq<T>)
    ensures multiset(r) == multiset(xs) + multiset{x}
    ensures |r| == |xs| + 1
  {
    if xs == [] then [x]
    else if KeyLt(key(x), key(xs[0])) then [x] + xs
    else
      assert xs == [xs[0]] + xs[1..];
      [xs[0]] + InsertBy(x, xs[1..], key)
  }

  /** sorted(xs, key=key): each element in turn inserted into the sorted prefix. */
  function SortBy<T>(xs: seq<T>, key: T -> (int, int)): seq<T>
  {
    if xs == [] then [] else InsertBy(xs[|xs| - 1], SortBy(xs[..|xs| - 1], key), key)
  }

  /** A lower bound of x and of every key in xs bounds every key after the insertion. */
  lemma {:induction false} InsertByLowerBound<T>(x: T, xs: seq<T>, key: T -> (int, int), b: (int, int))
    requires KeyLe(b, key(x))
    requires forall i :: 0 <= i < |xs| ==> KeyLe(b, key(xs[i]))
    ensures forall j :: 0 <= j < |InsertBy(x, xs, key)| ==> KeyLe(b, key(InsertBy(x, xs, key)[j]))
    decreases |xs|
  {
    if xs != [] && !KeyLt(key(x), key(xs[0])) {
      InsertByLowerBound(x, xs[1..], key, b);
    }
  }

  lemma {:induction false} InsertBySorted<T>(x: T, xs: seq<T>, key: T -> (int, int))
    requires SortedBy(xs, key)
    ensures SortedBy(InsertBy(x, xs, key), key)
    decreases |xs|
  {
    if xs != [] && !KeyLt(key(x), key(xs[0])) {
      var tail := InsertBy(x, xs[1..], key);
      assert SortedBy(xs[1..], key);
      InsertBySorted(x, xs[1..], key);
      InsertByLowerBound(x, xs[1..], key, key(xs[0]));
      assert InsertBy(x, xs, key) == [xs[0]] + tail;
    }
  }

  /** The sort yields a permutation of its input in ascending key order. */
  lemma SortByCorrect<T>(xs: seq<T>, key: T -> (int, int))
    ensures SortedBy(SortBy(xs, key), key)
    ensures multiset(SortBy(xs, key)) == multiset(xs)
    ensures |SortBy(xs, key)| == |xs|
  {
    SortBySorted(xs, key);
    SortByPermutes(xs, key);
  }

  lemma {:induction false} SortBySorted<T>(xs: seq<T>, key: T -> (int, int))
    ensures SortedBy(SortBy(xs, key), key)
    decreases |xs|
  {
    if xs != [] {
      var init := xs[..|xs| - 1];
      SortBySorted(init, key);
      InsertBySorted(xs[|xs| - 1], SortBy(init, key), key);
    }
  }

  lemma {:induction false} SortByPermutes<T>(xs: seq<T>, key: T -> (int, int))
    ensures multiset(SortBy(xs, key)) == multiset(xs)
    ensures |SortBy(xs, key)| == |xs|
    decreases |xs|
  {
    if xs != [] {
      var init, last := xs[..|xs| - 1], xs[|xs| - 1];
      SortByPermutes(init, key);
      assert xs == init + [last];
      assert multiset(xs) == multiset(init) + multiset{last};
    }
  }

  /** Inserting a key not below every sorted key appends it. */
  lemma {:induction false} InsertByLast<T>(x: T, xs: seq<T>, key: T -> (int, int))
    requires forall i :: 0 <= i < |xs| ==> KeyLe(key(xs[i]), key(x))
    ensures InsertBy(x, xs, key) == xs + [x]
    decreases |xs|
  {
    if xs != [] {
      InsertByLast(x, xs[1..], key);
      assert [xs[0]] + (xs[1..] + [x]) == xs + [x];
    }
  }

  /** Sorting an already sorted sequence changes nothing. */
  lemma {:induction false} SortBySortedIdentity<T>(xs: seq<T>, key: T -> (int, int))
    requires SortedBy(xs, key)
    ensures SortBy(xs, key) == xs
    decreases |xs|
  {
    if xs != [] {
      var init := xs[..|xs| - 1];
      assert SortedBy(init, key);
      SortBySortedIdentity(init, key);
      InsertByLast(xs[|xs| - 1], init, key);
      assert init + [xs[|xs| - 1]] == xs;
    }
  }

  lemma StrictlySortedIsSorted<T>(xs: seq<T>, key: T -> (int, int))
    requires StrictlySortedBy(xs, key)
    ensures SortedBy(xs, key)
  {
  }

  /** Strictly ascending keys follow from strictly ascending neighbours. */
  lemma {:induction false} StrictlySortedByNeighbours<T>(xs: seq<T>, key: T -> (int, int))
    requires forall i :: 0 < i < |xs| ==> KeyLt(key(xs[i - 1]), key(xs[i]))
    ensures StrictlySortedBy(xs, key)
    decreases |xs|
  {
    if xs != [] {
      var init := xs[..|xs| - 1];
      StrictlySortedByNeighbours(init, key);
      forall i, j | 0 <= i < j < |xs| ensures KeyLt(key(xs[i]), key(xs[j])) {
        if j < |xs| - 1 {
          assert xs[i] == init[i] && xs[j] == init[j];
        } else if i < j - 1 {
          assert xs[i] == init[i] && xs[j - 1] == init[j - 1];
        }
      }
    }
  }
}
