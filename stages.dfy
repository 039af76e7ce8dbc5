/** What each transformation stage emits, as a function of the upstream values it has
    handled. Every function here is written as the stage's worker runs: the value for a
    sequence `xs` is the value for `xs` without its last element, followed by the effect of
    handling that last element. The lemmas relate each to a closed form or to the property the
    stage promises. */
module Stages {
  import opened Sequences

  function Last<T>(xs: seq<T>): (x: T)
    requires xs != []
  {
    xs[|xs| - 1]
  }

  function Init<T>(xs: seq<T>): (init: seq<T>)
    requires xs != []
  {
    xs[..|xs| - 1]
  }

  /** Decomposes a prefix one value longer than `xs[..i]`. */
  lemma PrefixStep<T>(xs: seq<T>, i: nat)
    requires i < |xs|
    ensures xs[..i + 1] != [] && Init(xs[..i + 1]) == xs[..i] && Last(xs[..i + 1]) == xs[i]
  {
  }

  // ---------------------------------------------------------------- Map

  /** Map: `mapFunc` applied to each upstream value. */
  function MapSeq<T, U>(f: T -> U, xs: seq<T>): (r: seq<U>)
    ensures |r| == |xs|
  {
    if xs == [] then [] else MapSeq(f, Init(xs)) + [f(Last(xs))]
  }

  lemma {:induction false} MapElements<T, U>(f: T -> U, xs: seq<T>)
    ensures forall i :: 0 <= i < |xs| ==> MapSeq(f, xs)[i] == f(xs[i])
  {
    if xs != [] {
      MapElements(f, Init(xs));
    }
  }

  /** Cutting the upstream short cuts Map's output short. */
  lemma {:induction false} MapPrefix<T, U>(f: T -> U, xs: seq<T>, k: nat)
    requires k <= |xs|
    ensures MapSeq(f, xs[..k]) <= MapSeq(f, xs)
  {
    MapElements(f, xs);
    MapElements(f, xs[..k]);
  }

  // ---------------------------------------------------------------- Filter

  /** Filter: the upstream values for which the predicate holds. */
  function FilterSeq<T>(p: T -> bool, xs: seq<T>): (r: seq<T>)
    ensures |r| <= |xs|
  {
    if xs == [] then [] else FilterSeq(p, Init(xs)) + (if p(Last(xs)) then [Last(xs)] else [])
  }

  function Not<T>(p: T -> bool): (q: T -> bool) {
    x => !p(x)
  }

  /** Every value Filter emits satisfies the predicate. */
  lemma {:induction false} FilterSound<T>(p: T -> bool, xs: seq<T>)
    ensures forall i :: 0 <= i < |FilterSeq(p, xs)| ==> p(FilterSeq(p, xs)[i])
  {
    if xs != [] {
      FilterSound(p, Init(xs));
    }
  }

  /** Every upstream value that satisfies the predicate is emitted. */
  lemma {:induction false} FilterComplete<T>(p: T -> bool, xs: seq<T>)
    ensures forall i :: 0 <= i < |xs| && p(xs[i]) ==> xs[i] in FilterSeq(p, xs)
  {
    if xs != [] {
      FilterComplete(p, Init(xs));
      forall i | 0 <= i < |xs| && p(xs[i])
        ensures xs[i] in FilterSeq(p, xs)
      {
        if i < |xs| - 1 {
          assert xs[i] == Init(xs)[i];
        }
      }
    }
  }

  /** Filter keeps the order of the values it emits. */
  lemma {:induction false} FilterSubsequence<T>(p: T -> bool, xs: seq<T>)
    ensures IsSubsequence(FilterSeq(p, xs), xs)
  {
    if xs == [] {
      EmptySubsequence(xs);
    } else {
      var prev := FilterSeq(p, Init(xs));
      FilterSubsequence(p, Init(xs));
      SubsequenceSnoc(prev, Init(xs), Last(xs));
      assert Init(xs) + [Last(xs)] == xs;
      if p(Last(xs)) {
        assert FilterSeq(p, xs) == prev + [Last(xs)];
      } else {
        assert FilterSeq(p, xs) == prev;
      }
    }
  }

  /** The values Filter emits and those it drops make up the upstream exactly, so Filter
      emits each satisfying value as often as it arrives. */
  lemma {:induction false} FilterPartition<T>(p: T -> bool, xs: seq<T>)
    ensures multiset(FilterSeq(p, xs)) + multiset(FilterSeq(Not(p), xs)) == multiset(xs)
  {
    if xs != [] {
      FilterPartition(p, Init(xs));
      assert Init(xs) + [Last(xs)] == xs;
      assert Not(p)(Last(xs)) == !p(Last(xs));
    }
  }

  /** Handling more upstream values only extends Filter's output. */
  lemma {:induction false} FilterExtends<T>(p: T -> bool, a: seq<T>, b: seq<T>)
    ensures FilterSeq(p, a) <= FilterSeq(p, a + b)
    decreases |b|
  {
    if b == [] {
      assert a + b == a;
    } else {
      FilterExtends(p, a, Init(b));
      assert Init(a + b) == a + Init(b);
    }
  }

  // ---------------------------------------------------------------- Skip

  /** `min(max(num, 0), n)`: how many of `n` values Skip(num) drops. */
  function Clamp(num: int, n: nat): (k: nat) {
    if num <= 0 then 0 else if num < n then num else n
  }

  /** Skip's counter `curCnt` after handling `xs`: it counts a value only while below `num`,
      so it never passes `max(num, 0)`. */
  function SkipCount<T>(num: int, xs: seq<T>): (c: nat)
    ensures c <= |xs|
    ensures num <= 0 ==> c == 0
    ensures num > 0 ==> c <= num
  {
    if xs == [] then 0
    else
      var c := SkipCount(num, Init(xs));
      if c >= num then c else c + 1
  }

  /** Skip: a value is forwarded once `curCnt` has reached `num`, and counted otherwise. */
  function SkipSeq<T>(num: int, xs: seq<T>): (r: seq<T>)
    ensures |r| <= |xs|
  {
    if xs == [] then []
    else SkipSeq(num, Init(xs)) + (if SkipCount(num, Init(xs)) >= num then [Last(xs)] else [])
  }

  /** Skip(num) drops exactly the first `min(max(num, 0), |xs|)` values and forwards the rest. */
  lemma {:induction false} SkipClosedForm<T>(num: int, xs: seq<T>)
    ensures SkipCount(num, xs) == Clamp(num, |xs|)
    ensures SkipSeq(num, xs) == xs[Clamp(num, |xs|)..]
  {
    if xs != [] {
      SkipClosedForm(num, Init(xs));
      var k := Clamp(num, |xs| - 1);
      if k >= num {
        assert Init(xs)[k..] + [Last(xs)] == xs[k..];
      } else {
        assert k == |xs| - 1;
      }
    }
  }

  /** Skip with a count of zero or less forwards everything. */
  lemma {:induction false} SkipNonPositive<T>(num: int, xs: seq<T>)
    requires num <= 0
    ensures SkipSeq(num, xs) == xs
  {
    SkipClosedForm(num, xs);
  }

  /** Cutting the upstream short cuts Skip's output short. */
  lemma SkipPrefix<T>(num: int, xs: seq<T>, k: nat)
    requires k <= |xs|
    ensures SkipSeq(num, xs[..k]) <= SkipSeq(num, xs)
  {
    SkipClosedForm(num, xs);
    SkipClosedForm(num, xs[..k]);
    var a, b := Clamp(num, k), Clamp(num, |xs|);
    if a < b {
      assert a == k;
    } else {
      assert xs[..k][a..] == xs[b..k];
    }
  }

  // ---------------------------------------------------------------- Take

  /** Take(num): the counter `cnt` is the number of values emitted so far; a value is
      forwarded while `cnt < num`, and once `cnt` reaches `num` no value is forwarded. */
  function TakeSeq<T>(num: nat, xs: seq<T>): (r: seq<T>)
    ensures |r| <= num && |r| <= |xs|
  {
    if xs == [] then []
    else
      var prev := TakeSeq(num, Init(xs));
      if |prev| < num then prev + [Last(xs)] else prev
  }

  /** Take(num) emits exactly the first `min(num, |xs|)` values. */
  lemma {:induction false} TakeClosedForm<T>(num: nat, xs: seq<T>)
    ensures TakeSeq(num, xs) == xs[..Min(num, |xs|)]
  {
    if xs != [] {
      TakeClosedForm(num, Init(xs));
      if |xs| - 1 < num {
        assert Init(xs) + [Last(xs)] == xs;
      }
    }
  }

  /** Cutting the upstream short cuts Take's output short. */
  lemma TakePrefix<T>(num: nat, xs: seq<T>, k: nat)
    requires k <= |xs|
    ensures TakeSeq(num, xs[..k]) <= TakeSeq(num, xs)
  {
    TakeClosedForm(num, xs);
    TakeClosedForm(num, xs[..k]);
  }

  // ---------------------------------------------------------------- Distinct

  /** Distinct's list `olds` after handling `xs`: a value not equal to any remembered one is
      appended, a value equal to one is dropped. The values Distinct emits are exactly `olds`. */
  function DistinctSeq<T(==)>(xs: seq<T>): (olds: seq<T>)
    ensures NoDuplicates(olds)
    ensures forall i :: 0 <= i < |olds| ==> olds[i] in xs
    ensures forall i :: 0 <= i < |xs| ==> xs[i] in olds
  {
    if xs == [] then []
    else
      var olds := DistinctSeq(Init(xs));
      assert xs == Init(xs) + [Last(xs)];
      assert forall i :: 0 <= i < |xs| - 1 ==> xs[i] == Init(xs)[i];
      if Last(xs) in olds then olds else olds + [Last(xs)]
  }

  /** Distinct keeps the order of the values it emits. */
  lemma {:induction false} DistinctSubsequence<T>(xs: seq<T>)
    ensures IsSubsequence(DistinctSeq(xs), xs)
  {
    if xs == [] {
      EmptySubsequence(xs);
    } else {
      DistinctSubsequence(Init(xs));
      SubsequenceSnoc(DistinctSeq(Init(xs)), Init(xs), Last(xs));
      assert Init(xs) + [Last(xs)] == xs;
    }
  }

  /** The position at which `v` first occurs in `xs`. */
  function FirstIndex<T(==)>(xs: seq<T>, v: T): (k: nat)
    requires v in xs
    ensures k < |xs| && xs[k] == v && v !in xs[..k]
  {
    assert xs == Init(xs) + [Last(xs)];
    if v in Init(xs) then
      var k := FirstIndex(Init(xs), v);
      assert xs[..k] == Init(xs)[..k];
      k
    else
      assert Init(xs) == xs[..|xs| - 1];
      |xs| - 1
  }

  /** Distinct emits values in the order of their first occurrence upstream. */
  lemma {:induction false} DistinctFirstOccurrenceOrder<T>(xs: seq<T>)
    ensures forall i, j :: 0 <= i < j < |DistinctSeq(xs)| ==>
      FirstIndex(xs, DistinctSeq(xs)[i]) < FirstIndex(xs, DistinctSeq(xs)[j])
  {
    if xs != [] {
      var init := Init(xs);
      var d := DistinctSeq(xs);
      var dInit := DistinctSeq(init);
      DistinctFirstOccurrenceOrder(init);
      assert xs == init + [Last(xs)];
      forall v | v in init
        ensures FirstIndex(xs, v) == FirstIndex(init, v)
      {
      }
      forall i, j | 0 <= i < j < |d|
        ensures FirstIndex(xs, d[i]) < FirstIndex(xs, d[j])
      {
        assert d[i] == dInit[i];
        if j < |dInit| {
          assert d[j] == dInit[j];
        } else {
          assert d[j] == Last(xs) && Last(xs) !in init;
        }
      }
    }
  }

  /** Handling more upstream values only extends Distinct's output. */
  lemma {:induction false} DistinctExtends<T>(a: seq<T>, b: seq<T>)
    ensures DistinctSeq(a) <= DistinctSeq(a + b)
    decreases |b|
  {
    if b == [] {
      assert a + b == a;
    } else {
      DistinctExtends(a, Init(b));
      assert Init(a + b) == a + Init(b);
    }
  }
}
