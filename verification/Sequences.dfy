// What several components need to say about sequences.
module Sequences {
  /** No value occurs twice. */
  predicate Distinct<V(==)>(xs: seq<V>) {
    forall i, j :: 0 <= i < j < |xs| ==> xs[i] != xs[j]
  }
}
