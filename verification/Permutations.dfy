/** Sequences with the same elements in another order. Tallies, round consensus and mining
    are promised to depend on what they are given and not on the order in which it arrives.
    Such a claim is proved by taking one element at a time out of both sequences: the last
    one out of the first, and the same element, wherever it is, out of the second. The
    retrieval sort is a permutation of what it sorts. */
module Permutations {

  ghost predicate Permuted<T>(a: seq<T>, b: seq<T>) {
    multiset(a) == multiset(b)
  }

  /** Taking one element out of both keeps them permutations. */
  lemma WithoutOne<T>(init: seq<T>, x: T, front: seq<T>, back: seq<T>)
    requires Permuted(init + [x], front + [x] + back)
    ensures Permuted(init, front + back)
  {
    assert multiset(init) == multiset(init + [x]) - multiset{x};
    assert multiset(front + back) == multiset(front + [x] + back) - multiset{x};
  }
}
