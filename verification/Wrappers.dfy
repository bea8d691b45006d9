module Wrappers {
  datatype Option<+T> = None | Some(value: T)

  predicate Increasing(s: seq<nat>) { forall p, q :: 0 <= p < q < |s| ==> s[p] < s[q] }

  lemma IncreasingMore(s: seq<nat>, x: nat)
    requires Increasing(s) && forall p :: 0 <= p < |s| ==> s[p] < x
    ensures Increasing(s + [x])
  {}

  lemma NothingIncreases()
    ensures Increasing([])
  {}

  /** The entries of `at` at the positions `f`. */
  function Along(at: seq<nat>, f: seq<nat>): (r: seq<nat>)
    requires forall q :: 0 <= q < |f| ==> f[q] < |at|
    ensures |r| == |f| && forall q :: 0 <= q < |f| ==> r[q] == at[f[q]]
  {
    seq(|f|, q requires 0 <= q < |f| => at[f[q]])
  }

  lemma AlongInOrder(at: seq<nat>, f: seq<nat>)
    requires Increasing(at) && Increasing(f) && forall q :: 0 <= q < |f| ==> f[q] < |at|
    ensures Increasing(Along(at, f))
  {}
}
