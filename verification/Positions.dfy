/** Which places of a sequence a selection takes, in order. */
module Positions {

  /** Rising places below `bound`. */
  predicate Rising(at: seq<nat>, bound: nat) {
    && (forall i, j :: 0 <= i < j < |at| ==> at[i] < at[j])
    && (forall i :: 0 <= i < |at| ==> at[i] < bound)
  }

  lemma RisingOneMore(at: seq<nat>, n: nat)
    requires Rising(at, n)
    ensures Rising(at, n + 1) && Rising(at + [n], n + 1)
    ensures n !in at
  {
  }

  /** The elements of `source` at these places. */
  predicate Taken<T(==)>(taken: seq<T>, source: seq<T>, at: seq<nat>) {
    && |taken| == |at|
    && forall i :: 0 <= i < |at| ==> at[i] < |source| && taken[i] == source[at[i]]
  }

  lemma TakenOneMore<T>(taken: seq<T>, source: seq<T>, at: seq<nat>, n: nat)
    requires n < |source| && Taken(taken, source[..n], at)
    ensures Taken(taken, source[..n + 1], at)
    ensures Taken(taken + [source[n]], source[..n + 1], at + [n])
  {
  }

  lemma TakenOneMoreOf<T>(taken: seq<T>, source: seq<T>, at: seq<nat>, n: nat)
    requires n < |source| && Taken(taken, source, at)
    ensures Taken(taken + [source[n]], source, at + [n])
  {
  }
}
