/** Order-preserving selection from a list: what a query with a WHERE
    clause and no ORDER BY returns relative to the rows it scans. */
module Sequences {

  /** `xs` is `ys` with some elements left out, the rest kept in order. */
  predicate IsSubsequence<T(==)>(xs: seq<T>, ys: seq<T>)
    decreases |ys|
  {
    if xs == [] then true
    else if ys == [] then false
    else (xs[0] == ys[0] && IsSubsequence(xs[1..], ys[1..])) || IsSubsequence(xs, ys[1..])
  }

  /** Every element of a subsequence comes from the original list. */
  lemma {:induction false} SubsequenceMembers<T>(xs: seq<T>, ys: seq<T>)
    requires IsSubsequence(xs, ys)
    ensures forall x :: x in xs ==> x in ys
    decreases |ys|
  {
    if xs != [] {
      if xs[0] == ys[0] && IsSubsequence(xs[1..], ys[1..]) {
        SubsequenceMembers(xs[1..], ys[1..]);
        assert forall x :: x in xs ==> x == xs[0] || x in xs[1..];
      } else {
        SubsequenceMembers(xs, ys[1..]);
      }
    }
  }

  /** Leaving elements out of a list whose keys strictly increase leaves a
      list whose keys strictly increase. */
  lemma {:induction false} SubsequenceAscending<T>(xs: seq<T>, ys: seq<T>, key: T -> int)
    requires IsSubsequence(xs, ys)
    requires forall i, j :: 0 <= i < j < |ys| ==> key(ys[i]) < key(ys[j])
    ensures forall i, j :: 0 <= i < j < |xs| ==> key(xs[i]) < key(xs[j])
    decreases |ys|
  {
    if xs != [] {
      if xs[0] == ys[0] && IsSubsequence(xs[1..], ys[1..]) {
        SubsequenceAscending(xs[1..], ys[1..], key);
        SubsequenceMembers(xs[1..], ys[1..]);
        forall j | 1 <= j < |xs| ensures key(xs[0]) < key(xs[j]) {
          assert xs[j] == xs[1..][j - 1];
          assert xs[j] in xs[1..];
          assert xs[j] in ys[1..];
          var k :| 0 <= k < |ys[1..]| && ys[1..][k] == xs[j];
          assert ys[k + 1] == xs[j];
        }
        forall i, j | 1 <= i < j < |xs| ensures key(xs[i]) < key(xs[j]) {
          assert xs[i] == xs[1..][i - 1] && xs[j] == xs[1..][j - 1];
        }
      } else {
        SubsequenceAscending(xs, ys[1..], key);
      }
    }
  }
}
