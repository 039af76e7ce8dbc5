/** Facts about sequences used to state what the stages emit. */
module Sequences {

  function Min(a: int, b: int): (m: int) {
    if a <= b then a else b
  }

  /** No two positions of `s` hold equal values. */
  predicate NoDuplicates<T(==)>(s: seq<T>) {
    forall i, j :: 0 <= i < j < |s| ==> s[i] != s[j]
  }

  /** `idx` lists, in strictly increasing order, positions of `b` that hold `a`'s values. */
  ghost predicate Embeds<T>(a: seq<T>, b: seq<T>, idx: seq<nat>) {
    && |idx| == |a|
    && (forall i :: 0 <= i < |a| ==> idx[i] < |b| && a[i] == b[idx[i]])
    && (forall i, j :: 0 <= i < j < |idx| ==> idx[i] < idx[j])
  }

  /** `a` is `b` with some of its values left out and the rest kept in order. */
  ghost predicate IsSubsequence<T>(a: seq<T>, b: seq<T>) {
    exists idx :: Embeds(a, b, idx)
  }

  lemma EmptySubsequence<T>(b: seq<T>)
    ensures IsSubsequence([], b)
  {
    assert Embeds([], b, []);
  }

  /** A subsequence stays one when `b` grows at the end, and when both grow by the same value. */
  lemma SubsequenceSnoc<T>(a: seq<T>, b: seq<T>, x: T)
    requires IsSubsequence(a, b)
    ensures IsSubsequence(a, b + [x])
    ensures IsSubsequence(a + [x], b + [x])
  {
    var idx: seq<nat> :| Embeds(a, b, idx);
    assert Embeds(a, b + [x], idx);
    assert Embeds(a + [x], b + [x], idx + [|b|]);
  }

  /** A prefix of a subsequence is a subsequence. */
  lemma SubsequencePrefix<T>(a: seq<T>, b: seq<T>, c: seq<T>)
    requires a <= b && IsSubsequence(b, c)
    ensures IsSubsequence(a, c)
  {
    var idx: seq<nat> :| Embeds(b, c, idx);
    assert Embeds(a, c, idx[..|a|]);
  }
}
