/** Pipelines built from a finite source, one stage and `ToSlice` or `First`, as the library's
    callers use them; and the concrete runs of the library's tests of NewStream, GenerateStream,
    Take, Skip, Map, Filter and First. A stage is cancelled at the
    point `ctx`; with `Background` nothing is cancelled. */
module Pipelines {
  import opened Wrappers
  import opened Contexts
  import opened Sequences
  import opened Stages
  import opened Gstream

  /** `NewStream(ctx, s).ToSlice()`: the values come back in order, none skipped or repeated;
      a cancelled source yields a prefix. */
  method Collect<T>(ctx: Context, s: seq<T>) returns (r: seq<T>)
    ensures r <= s && |r| == ctx.Budget(|s|)
    ensures ctx.Background? ==> r == s
  {
    var source := NewStream(ctx, s);
    r := source.ToSlice();
    assert r == s[..ctx.Budget(|s|)];
    assert s[..|s|] == s;
  }

  /** `Map`: one output per input, `r[i] == f(s[i])`; all of them unless cancelled. */
  method MapAll<T, U>(ctx: Context, s: seq<T>, f: T -> U) returns (r: seq<U>)
    ensures |r| <= |s| && (ctx.Background? ==> |r| == |s|)
    ensures forall i :: 0 <= i < |r| ==> r[i] == f(s[i])
  {
    var source := NewStream(Background, s);
    assert s[..|s|] == s;
    var mapped := source.Map(ctx, f);
    r := mapped.ToSlice();
    assert r == MapSeq(f, s[..ctx.Budget(|s|)]);
    MapPrefix(f, s, ctx.Budget(|s|));
    MapElements(f, s);
  }

  /** `Filter`: only values satisfying `p`, in upstream order; unless cancelled, every
      satisfying value, as often as it occurs. */
  method FilterAll<T>(ctx: Context, s: seq<T>, p: T -> bool) returns (r: seq<T>)
    ensures forall i :: 0 <= i < |r| ==> p(r[i])
    ensures IsSubsequence(r, s)
    ensures ctx.Background? ==> forall i :: 0 <= i < |s| && p(s[i]) ==> s[i] in r
    ensures ctx.Background? ==> multiset(r) + multiset(FilterSeq(Not(p), s)) == multiset(s)
  {
    var source := NewStream(Background, s);
    assert s[..|s|] == s;
    var filtered := source.Filter(ctx, p);
    r := filtered.ToSlice();
    var k := ctx.Budget(|s|);
    assert r == FilterSeq(p, s[..k]);
    FilterSound(p, s[..k]);
    FilterExtends(p, s[..k], s[k..]);
    assert s[..k] + s[k..] == s;
    FilterSubsequence(p, s);
    SubsequencePrefix(r, FilterSeq(p, s), s);
    FilterComplete(p, s);
    FilterPartition(p, s);
  }

  /** `Skip(num)`: everything from index `min(max(num, 0), |s|)` on, or a prefix of it when
      cancelled; the identity for `num <= 0`. */
  method SkipAll<T>(ctx: Context, s: seq<T>, num: int) returns (r: seq<T>)
    ensures r <= s[Clamp(num, |s|)..]
    ensures ctx.Background? ==> r == s[Clamp(num, |s|)..]
    ensures ctx.Background? && num <= 0 ==> r == s
  {
    var source := NewStream(Background, s);
    assert s[..|s|] == s;
    var skipped := source.Skip(ctx, num);
    r := skipped.ToSlice();
    assert r == SkipSeq(num, s[..ctx.Budget(|s|)]);
    SkipPrefix(num, s, ctx.Budget(|s|));
    SkipClosedForm(num, s);
  }

  /** `Take(num)`: the first `min(num, |s|)` values unless cancelled earlier, never more than
      `num`. */
  method TakeAll<T>(ctx: Context, s: seq<T>, num: int) returns (r: seq<T>)
    requires num >= 0
    ensures r <= s && |r| <= num
    ensures ctx.Background? ==> |r| == Min(num, |s|)
  {
    var source := NewStream(Background, s);
    assert s[..|s|] == s;
    var taken := source.Take(ctx, num);
    r := taken.ToSlice();
    assert r == TakeSeq(num, s[..ctx.Budget(|s|)]);
    TakePrefix(num, s, ctx.Budget(|s|));
    TakeClosedForm(num, s);
  }

  /** `Distinct`: no value twice, upstream order, in order of first occurrence; unless
      cancelled, every upstream value is represented. */
  method DistinctAll<T(==)>(ctx: Context, s: seq<T>) returns (r: seq<T>)
    ensures NoDuplicates(r) && IsSubsequence(r, s)
    ensures forall i :: 0 <= i < |r| ==> r[i] in s
    ensures forall i, j :: 0 <= i < j < |r| ==> FirstIndex(s, r[i]) < FirstIndex(s, r[j])
    ensures ctx.Background? ==> forall i :: 0 <= i < |s| ==> s[i] in r
  {
    var source := NewStream(Background, s);
    assert s[..|s|] == s;
    var distinct := Distinct(source, ctx);
    r := distinct.ToSlice();
    var k := ctx.Budget(|s|);
    assert r == DistinctSeq(s[..k]);
    DistinctExtends(s[..k], s[k..]);
    assert s[..k] + s[k..] == s;
    DistinctSubsequence(s);
    SubsequencePrefix(r, DistinctSeq(s), s);
    DistinctFirstOccurrenceOrder(s);
    var d := DistinctSeq(s);
    assert r <= d;
    forall i, j | 0 <= i < j < |r|
      ensures r[i] != r[j] && FirstIndex(s, r[i]) < FirstIndex(s, r[j])
    {
      assert r[i] == d[i] && r[j] == d[j];
    }
    forall i | 0 <= i < |r|
      ensures r[i] in s
    {
      assert r[i] == d[i];
    }
  }

  /** `First()`: the first value when the source sends one, otherwise `None`. */
  method FirstOf<T>(ctx: Context, s: seq<T>) returns (r: Option<T>)
    ensures s != [] && !ctx.Done(0) ==> r == Some(s[0])
    ensures s == [] || ctx.Done(0) ==> r == None
  {
    var source := NewStream(ctx, s);
    r := source.First();
  }

  /** The single-use guard is never armed: asking a fresh stream for its channel twice hands
      out the same channel both times. */
  method GetChannelTwice<T>(s: seq<T>) returns (first: Opened<T>, second: Opened<T>)
    ensures first.Opened? && second.Opened? && first == second
    ensures first.channel.pending == s
  {
    var source := NewStream(Background, s);
    assert s[..|s|] == s;
    first := source.GetChannel();
    second := source.GetChannel();
  }

  function Range(lo: int, hi: int): (r: seq<int>)
    requires lo <= hi + 1
    ensures |r| == hi - lo + 1 && forall i :: 0 <= i < |r| ==> r[i] == lo + i
  {
    seq(hi - lo + 1, i => lo + i)
  }

  /** TestNewStream: `[1, 2, 3, 4, 5, 6]` comes back in order. */
  method NewStreamScenario() returns (r: seq<int>)
    ensures r == [1, 2, 3, 4, 5, 6]
  {
    r := Collect(Background, [1, 2, 3, 4, 5, 6]);
  }

  /** TestGenerateStream: a generator counting from 0 that cancels its own context on its tenth
      call. Cancellation may win the `select` then or at any later one, so the worker sends
      `n >= 9` values, and whatever it sends counts up from 0. */
  method GenerateScenario(n: nat) returns (r: seq<int>)
    requires 9 <= n < 1000
    ensures |r| == n
    ensures forall i :: 0 <= i < |r| ==> r[i] == i
  {
    var source, _ := GenerateStream(CancelledAfter(n), Range(0, 999));
    r := source.ToSlice();
  }

  /** TestSkip: `[249..2234]` skipping 239 gives `[488..2234]`, 1747 values. */
  method SkipScenario() returns (r: seq<int>)
    ensures |r| == 1747 && r[0] == 488 && r[1746] == 2234
    ensures forall i :: 0 <= i < |r| ==> r[i] == 488 + i
  {
    var s := Range(249, 2234);
    r := SkipAll(Background, s, 239);
    assert r == s[239..];
  }

  /** TestMap: `[125..485]` squared, in order. */
  method MapScenario() returns (r: seq<int>)
    ensures |r| == 361
    ensures forall i :: 0 <= i < |r| ==> r[i] == (125 + i) * (125 + i)
  {
    r := MapAll(Background, Range(125, 485), x => x * x);
  }

  /** TestFilter: filtering `[125..485]` for even values gives only even values. */
  method FilterScenario() returns (r: seq<int>)
    ensures forall i :: 0 <= i < |r| ==> r[i] % 2 == 0
    ensures 126 in r && 484 in r
  {
    var s := Range(125, 485);
    r := FilterAll(Background, s, x => x % 2 == 0);
    assert s[1] == 126 && s[359] == 484;
  }

  /** TestTake: 20 values taken from a generator counting up from 123, whatever its cancellation
      point `n`, as long as it sends at least 20. */
  method TakeScenario(n: nat) returns (r: seq<int>)
    requires 20 <= n < 899
    ensures r == Range(123, 142)
  {
    var source, _ := GenerateStream(CancelledAfter(n), Range(123, 1021));
    ghost var sent := Range(123, 1021)[..n];
    assert sent[..Background.Budget(n)] == sent;
    var taken := source.Take(Background, 20);
    r := taken.ToSlice();
    TakeClosedForm(20, Range(123, 1021)[..n]);
    assert r == sent[..20];
  }

  /** TestFirst: a counting generator's first value is 0; on a context cancelled before the
      worker's first `select`, nothing is found. */
  method FirstScenario(n: nat) returns (found: Option<int>, cancelled: Option<int>)
    requires 1 <= n < 10
    ensures found == Some(0) && cancelled == None
  {
    var counting := Range(0, 9);
    var live, _ := GenerateStream(CancelledAfter(n), counting);
    found := live.First();
    var dead, _ := GenerateStream(CancelledAfter(0), counting);
    cancelled := dead.First();
  }
}
