/** The pipeline engine run one worker at a time. Each source or stage runs its worker to
    completion when it is built, so its output channel already holds everything the worker
    sends, then closed; cancellation is the point given by a `Context`. */
module Gstream {
  import opened Wrappers
  import opened Contexts
  import opened Channels
  import opened Sequences
  import opened Stages

  /** What `open` hands back: the stream's channel, or the panic "stream has already opened." */
  datatype Opened<T> = Opened(channel: Channel<T>) | AlreadyOpened

  /** The stream handle: the inbound channel, the single-use flag and the local `done` signal. */
  class Stream<T> {
    const stream: Channel<T>
    var isOpen: bool
    /** Whether `close(done)` has run. */
    var doneClosed: bool

    /** A usable handle: its worker has finished and closed the channel, and the single-use
        guard is not tripped (nothing ever sets `isOpen`, so this holds for every handle). */
    ghost predicate Valid()
      reads this, stream
    {
      !isOpen && stream.closed
    }

    /** `newStream`: wraps a channel with the guard down. */
    constructor (stream: Channel<T>)
      requires stream.closed
      ensures this.stream == stream && !isOpen && !doneClosed && Valid()
    {
      this.stream := stream;
      isOpen := false;
      doneClosed := false;
    }

    /** `open`: panics if `isOpen`, and otherwise returns the channel. It never sets
        `isOpen`, so a second call is not rejected. */
    function Open(): (r: Opened<T>)
      reads this
      ensures r.AlreadyOpened? <==> isOpen
      ensures r.Opened? ==> r.channel == stream
    {
      if isOpen then AlreadyOpened else Opened(stream)
    }

    /** `GetChannel`: the raw channel, through `open`. */
    function GetChannel(): (r: Opened<T>)
      reads this
      ensures r.AlreadyOpened? <==> isOpen
      ensures !isOpen ==> r == Opened(stream)
    {
      Open()
    }

    /** `Take(ctx, num)`: forwards upstream values while its count `cnt` is below `num`, and
        once `cnt` reaches `num` stops without reading further; the rest stays upstream.
        `num` is the output channel's capacity, so it must not be negative. */
    method Take(ctx: Context, num: int) returns (r: Stream<T>)
      requires Valid() && num >= 0
      modifies stream
      ensures Valid() && fresh(r) && fresh(r.stream) && r.Valid() && !r.doneClosed
      ensures var xs := old(stream.pending); var k := ctx.Budget(|xs|);
        && r.stream.pending == TakeSeq(num, xs[..k])
        && stream.pending == xs[Min(num, k)..]
    {
      ghost var xs := stream.pending;
      ghost var k := ctx.Budget(|xs|);
      var out := new Channel<T>();
      var cnt := 0;
      var reader := Open().channel;
      while true
        invariant 0 <= cnt <= num && cnt <= k
        invariant reader == stream && reader.closed && !out.closed
        invariant reader.pending == xs[cnt..]
        invariant out.pending == xs[..cnt]
        decreases num - cnt
      {
        if cnt >= num {
          break;
        }
        if ctx.Done(cnt) {
          break;
        }
        var v := reader.Receive();
        if v.None? {
          break;
        }
        out.Send(v.value);
        cnt := cnt + 1;
      }
      assert cnt == Min(num, k);
      TakeClosedForm(num, xs[..k]);
      assert xs[..k][..cnt] == xs[..cnt];
      out.Close();
      r := new Stream(out);
    }

    /** `Skip(ctx, num)`: the `execDefault` loop with Skip's callback, which keeps `curCnt`. */
    method Skip(ctx: Context, num: int) returns (r: Stream<T>)
      requires Valid()
      modifies stream
      ensures Valid() && fresh(r) && fresh(r.stream) && r.Valid() && !r.doneClosed
      ensures var xs := old(stream.pending); var k := ctx.Budget(|xs|);
        && r.stream.pending == SkipSeq(num, xs[..k])
        && stream.pending == xs[k..]
    {
      ghost var xs := stream.pending;
      var out := new Channel<T>();
      var worker := new SkipWorker<T>(num);
      var reader := Open().channel;
      var handled := 0;
      while true
        invariant handled <= ctx.Budget(|xs|)
        invariant reader == stream && reader.closed && !out.closed
        invariant reader.pending == xs[handled..]
        invariant worker.num == num && worker.Valid()
        invariant worker.curCnt == SkipCount(num, xs[..handled])
        invariant out.pending == SkipSeq(num, xs[..handled])
        decreases |reader.pending|
      {
        if ctx.Done(handled) {
          break;
        }
        var v := reader.Receive();
        if v.None? {
          break;
        }
        var emitted := worker.Step(v.value);
        if emitted.Some? {
          out.Send(emitted.value);
        }
        PrefixStep(xs, handled);
        handled := handled + 1;
      }
      out.Close();
      r := new Stream(out);
    }

    /** `Map(ctx, mapFunc)`: the `execDefault` loop, sending `mapFunc(v)` for each value `v`. */
    method Map<U>(ctx: Context, mapFunc: T -> U) returns (r: Stream<U>)
      requires Valid()
      modifies stream
      ensures Valid() && fresh(r) && fresh(r.stream) && r.Valid() && !r.doneClosed
      ensures var xs := old(stream.pending); var k := ctx.Budget(|xs|);
        && r.stream.pending == MapSeq(mapFunc, xs[..k])
        && stream.pending == xs[k..]
    {
      ghost var xs := stream.pending;
      var out := new Channel<U>();
      var reader := Open().channel;
      var handled := 0;
      while true
        invariant handled <= ctx.Budget(|xs|)
        invariant reader == stream && reader.closed && !out.closed
        invariant reader.pending == xs[handled..]
        invariant out.pending == MapSeq(mapFunc, xs[..handled])
        decreases |reader.pending|
      {
        if ctx.Done(handled) {
          break;
        }
        var v := reader.Receive();
        if v.None? {
          break;
        }
        out.Send(mapFunc(v.value));
        PrefixStep(xs, handled);
        handled := handled + 1;
      }
      out.Close();
      r := new Stream(out);
    }

    /** `Filter(ctx, filter)`: the `execDefault` loop, sending `v` only when `filter(v)`. */
    method Filter(ctx: Context, filter: T -> bool) returns (r: Stream<T>)
      requires Valid()
      modifies stream
      ensures Valid() && fresh(r) && fresh(r.stream) && r.Valid() && !r.doneClosed
      ensures var xs := old(stream.pending); var k := ctx.Budget(|xs|);
        && r.stream.pending == FilterSeq(filter, xs[..k])
        && stream.pending == xs[k..]
    {
      ghost var xs := stream.pending;
      var out := new Channel<T>();
      var reader := Open().channel;
      var handled := 0;
      while true
        invariant handled <= ctx.Budget(|xs|)
        invariant reader == stream && reader.closed && !out.closed
        invariant reader.pending == xs[handled..]
        invariant out.pending == FilterSeq(filter, xs[..handled])
        decreases |reader.pending|
      {
        if ctx.Done(handled) {
          break;
        }
        var v := reader.Receive();
        if v.None? {
          break;
        }
        if filter(v.value) {
          out.Send(v.value);
        }
        PrefixStep(xs, handled);
        handled := handled + 1;
      }
      out.Close();
      r := new Stream(out);
    }

    /** `First()`: one receive, then `close(done)`. `None` means the stream was closed
        without a value. Closing `done` a second time panics in Go, so it is excluded. */
    method First() returns (r: Option<T>)
      requires Valid() && !doneClosed
      modifies this, stream
      ensures Valid() && doneClosed
      ensures old(stream.pending) == [] ==> r == None && stream.pending == []
      ensures old(stream.pending) != [] ==>
        r == Some(old(stream.pending)[0]) && stream.pending == old(stream.pending)[1..]
    {
      var reader := Open().channel;
      r := reader.Receive();
      doneClosed := true;
    }

    /** `ToSlice()`: receives until the channel is closed and drained, appending each value,
        then `close(done)`. */
    method ToSlice() returns (slice: seq<T>)
      requires Valid() && !doneClosed
      modifies this, stream
      ensures Valid() && doneClosed
      ensures slice == old(stream.pending) && stream.pending == []
    {
      var reader := Open().channel;
      slice := [];
      while true
        invariant reader == stream && reader.closed && !isOpen
        invariant slice + reader.pending == old(stream.pending)
        decreases |reader.pending|
      {
        var v := reader.Receive();
        if v.None? {
          break;
        }
        slice := slice + [v.value];
      }
      doneClosed := true;
    }
  }

  /** `Distinct(ctx)`: the `execDefault` loop with Distinct's callback, which keeps `olds`.
      (A method of `Stream` in the source; here it needs `T(==)`, since Go's `==` on payloads
      that are not comparable panics.) */
  method Distinct<T(==)>(s: Stream<T>, ctx: Context) returns (r: Stream<T>)
    requires s.Valid()
    modifies s.stream
    ensures s.Valid() && fresh(r) && fresh(r.stream) && r.Valid() && !r.doneClosed
    ensures var xs := old(s.stream.pending); var k := ctx.Budget(|xs|);
      && r.stream.pending == DistinctSeq(xs[..k])
      && s.stream.pending == xs[k..]
  {
    ghost var xs := s.stream.pending;
    var out := new Channel<T>();
    var worker := new DistinctWorker<T>();
    var reader := s.Open().channel;
    var handled := 0;
    while true
      invariant handled <= ctx.Budget(|xs|)
      invariant reader == s.stream && reader.closed && !out.closed
      invariant reader.pending == xs[handled..]
      invariant worker.Valid()
      invariant worker.olds == DistinctSeq(xs[..handled])
      invariant out.pending == worker.olds
      decreases |reader.pending|
    {
      if ctx.Done(handled) {
        break;
      }
      var v := reader.Receive();
      if v.None? {
        break;
      }
      var emitted := worker.Step(v.value);
      if emitted.Some? {
        out.Send(emitted.value);
      }
      PrefixStep(xs, handled);
      handled := handled + 1;
    }
    out.Close();
    r := new Stream(out);
  }

  /** `NewStream(ctx, slice)`: sends the slice's values in order until it is exhausted or a
      cancellation signal wins the `select`, then closes the channel. */
  method NewStream<T>(ctx: Context, slice: seq<T>) returns (r: Stream<T>)
    ensures fresh(r) && fresh(r.stream) && r.Valid() && !r.doneClosed
    ensures r.stream.pending == slice[..ctx.Budget(|slice|)]
  {
    var stream := new Channel<T>();
    var i := 0;
    while i < |slice|
      invariant i <= ctx.Budget(|slice|)
      invariant !stream.closed && stream.pending == slice[..i]
    {
      if ctx.Done(i) {
        break;
      }
      stream.Send(slice[i]);
      i := i + 1;
    }
    stream.Close();
    r := new Stream(stream);
  }

  /** `GenerateStream(ctx, generator)`, with `results[i]` the value of the generator's
      `i`-th call. The worker never runs out by itself, so it is modelled only up to its
      cancellation point `n`; `generator()` is evaluated before each `select`, so it is
      called once more, for a value that is then not sent. */
  method GenerateStream<T>(ctx: Context, results: seq<T>) returns (r: Stream<T>, calls: nat)
    requires ctx.CancelledAfter? && ctx.n < |results|
    ensures fresh(r) && fresh(r.stream) && r.Valid() && !r.doneClosed
    ensures r.stream.pending == results[..ctx.n]
    ensures calls == ctx.n + 1
  {
    var stream := new Channel<T>();
    var i := 0;
    calls := 0;
    while true
      invariant i <= ctx.n && calls == i
      invariant !stream.closed && stream.pending == results[..i]
      decreases ctx.n - i
    {
      var v := results[i];
      calls := calls + 1;
      if ctx.Done(i) {
        break;
      }
      stream.Send(v);
      i := i + 1;
    }
    stream.Close();
    r := new Stream(stream);
  }

  /** Skip's callback state: the counter `curCnt` the closure captures. */
  class SkipWorker<T> {
    const num: int
    var curCnt: int

    /** `curCnt` never passes `max(num, 0)`. */
    ghost predicate Valid()
      reads this
    {
      0 <= curCnt && (num <= 0 ==> curCnt == 0) && (num > 0 ==> curCnt <= num)
    }

    constructor (num: int)
      ensures this.num == num && curCnt == 0 && Valid()
    {
      this.num := num;
      curCnt := 0;
    }

    /** The callback for one value: forwarded once `curCnt` has reached `num`, otherwise
        counted and dropped. */
    method Step(i: T) returns (out: Option<T>)
      requires Valid()
      modifies this
      ensures Valid()
      ensures old(curCnt) >= num ==> out == Some(i) && curCnt == old(curCnt)
      ensures old(curCnt) < num ==> out == None && curCnt == old(curCnt) + 1
    {
      if curCnt >= num {
        out := Some(i);
      } else {
        curCnt := curCnt + 1;
        out := None;
      }
    }
  }

  /** Distinct's callback state: the list `olds` of values already forwarded. */
  class DistinctWorker<T(==)> {
    var olds: seq<T>

    /** `olds` never holds two equal values. */
    ghost predicate Valid()
      reads this
    {
      NoDuplicates(olds)
    }

    constructor ()
      ensures olds == [] && Valid()
    {
      olds := [];
    }

    /** The callback for one value: dropped if equal to a remembered value, otherwise
        remembered and forwarded. */
    method Step(i: T) returns (out: Option<T>)
      requires Valid()
      modifies this
      ensures Valid()
      ensures i in old(olds) ==> out == None && olds == old(olds)
      ensures i !in old(olds) ==> out == Some(i) && olds == old(olds) + [i]
    {
      var seen := Contains(olds, i);
      if seen {
        return None;
      }
      olds := olds + [i];
      out := Some(i);
    }
  }

  /** The linear scan `for _, old := range olds { if old == i { ... } }`. */
  method Contains<T(==)>(olds: seq<T>, i: T) returns (found: bool)
    ensures found <==> i in olds
  {
    var j := 0;
    while j < |olds|
      invariant j <= |olds|
      invariant i !in olds[..j]
    {
      if olds[j] == i {
        return true;
      }
      j := j + 1;
    }
    assert olds[..j] == olds;
    return false;
  }
}
