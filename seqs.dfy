// Sequence facts the traversals share: concatenating the images of a sequence's
// elements, and how that concatenation is unaffected by reordering.
module Seqs {

  /** f(xs[0]) + f(xs[1]) + ...: the nodes a loop over xs yields when each
    * element yields f of itself. */
  function FlatMap<T, U>(xs: seq<T>, f: T -> seq<U>): (r: seq<U>)
    ensures xs == [] ==> r == []
  {
    if xs == [] then [] else f(xs[0]) + FlatMap(xs[1..], f)
  }

  lemma {:induction false} FlatMapAppend<T, U>(xs: seq<T>, ys: seq<T>, f: T -> seq<U>)
    ensures FlatMap(xs + ys, f) == FlatMap(xs, f) + FlatMap(ys, f)
    decreases |xs|
  {
    if xs == [] {
      assert xs + ys == ys;
    } else {
      assert (xs + ys)[1..] == xs[1..] + ys;
      FlatMapAppend(xs[1..], ys, f);
    }
  }

  /** Reordering xs reorders what the loop yields and changes nothing else. */
  lemma {:induction false} FlatMapPermutation<T, U>(xs: seq<T>, ys: seq<T>, f: T -> seq<U>)
    requires multiset(xs) == multiset(ys)
    ensures multiset(FlatMap(xs, f)) == multiset(FlatMap(ys, f))
    decreases |xs|
  {
    if xs == [] {
      assert |ys| == |multiset(ys)| == 0;
    } else {
      assert xs[0] in multiset(ys);
      var k :| 0 <= k < |ys| && ys[k] == xs[0];
      var a, b := ys[..k], ys[k + 1..];
      RemoveMatching(xs, ys, k);
      FlatMapPermutation(xs[1..], a + b, f);
      FlatMapSplit(ys, k, f);
    }
  }

  /** Removing one occurrence of xs[0] from both sides keeps them permutations. */
  lemma RemoveMatching<T>(xs: seq<T>, ys: seq<T>, k: nat)
    requires multiset(xs) == multiset(ys) && xs != [] && k < |ys| && ys[k] == xs[0]
    ensures multiset(xs[1..]) == multiset(ys[..k] + ys[k + 1..])
  {
    assert xs == [xs[0]] + xs[1..];
    assert multiset(xs[1..]) == multiset(xs) - multiset{xs[0]};
    var rest := ys[..k] + ys[k + 1..];
    assert ys == rest[..k] + [ys[k]] + rest[k..];
    assert multiset(rest) == multiset(ys) - multiset{ys[k]};
  }

  /** The images around position k, and the image of ys[k] between them. */
  lemma FlatMapSplit<T, U>(ys: seq<T>, k: nat, f: T -> seq<U>)
    requires k < |ys|
    ensures multiset(FlatMap(ys, f)) == multiset(f(ys[k])) + multiset(FlatMap(ys[..k] + ys[k + 1..], f))
  {
    var a, b := ys[..k], ys[k + 1..];
    assert ys == a + ([ys[k]] + b);
    FlatMapAppend(a, [ys[k]] + b, f);
    FlatMapAppend(a, b, f);
    assert ([ys[k]] + b)[1..] == b;
    assert FlatMap([ys[k]] + b, f) == f(ys[k]) + FlatMap(b, f);
  }
}
