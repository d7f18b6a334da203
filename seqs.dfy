/** Small facts about sequences, used by the proofs of several modules. */
module Seqs {
  /** Appending `ys` is appending all of it but its last element, then that element. */
  lemma SnocOfSplit<T>(xs: seq<T>, ys: seq<T>)
    requires ys != []
    ensures (xs + ys[..|ys| - 1]) + [ys[|ys| - 1]] == xs + ys
  {
    assert ys == ys[..|ys| - 1] + [ys[|ys| - 1]];
  }

  /** A prefix grown by the next element is the next prefix. */
  lemma TakeSnoc<T>(xs: seq<T>, i: nat)
    requires i < |xs|
    ensures xs[..i] + [xs[i]] == xs[..i + 1]
  {
  }

  /** Lists of up to four elements, built one element at a time. */
  lemma Snoc4<T>(a: T, b: T, c: T, d: T)
    ensures [] + [a] == [a] && [a] + [b] == [a, b] && [a, b] + [c] == [a, b, c] && [a, b, c] + [d] == [a, b, c, d]
  {
  }

  /** Lists of five and six elements, built one element at a time. */
  lemma Snoc6<T>(a: T, b: T, c: T, d: T, e: T, f: T)
    ensures [a, b, c, d] + [e] == [a, b, c, d, e] && [a, b, c, d, e] + [f] == [a, b, c, d, e, f]
  {
  }

  /** Appending one element after a concatenation. */
  lemma SnocAssoc<T>(a: seq<T>, b: seq<T>, x: T)
    ensures a + b + [x] == a + (b + [x])
  {
  }

  /** The element after `parts` can be counted with `parts` instead of with `rest`. */
  lemma MoveFront<T>(parts: seq<T>, x: T, rest: seq<T>, all: seq<T>)
    requires parts + ([x] + rest) == all
    ensures (parts + [x]) + rest == all
  {
    assert parts + ([x] + rest) == (parts + [x]) + rest;
  }
}
