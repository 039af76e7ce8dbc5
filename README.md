# gstream, modelled in Dafny

`gstream` is a Go library of lazy, push-based stream pipelines. A *source* (`NewStream` over a
slice, `GenerateStream` over a generator function) starts a worker goroutine that sends values
into a channel; every *stage* (`Map`, `Filter`, `Skip`, `Take`, `Distinct`) starts another
worker that reads its upstream channel and writes its own; a *terminal* (`First`, `ToSlice`,
`GetChannel`) drains the last channel. Workers stop when their upstream closes or when a
cancellation signal (the caller's context or the stream's local `done` channel) wins a `select`;
then they close their own channel.

This project models what each worker does to the values, one worker at a time:

- `Channels.Channel` is a channel after its writer has run: a FIFO queue of pending values and a
  `closed` flag, with `Send`, `Receive` (Go's `v, ok := <-ch` as an `Option`) and `Close`.
- `Contexts.Context` names the cancellation point a worker observes: `Background` (never) or
  `CancelledAfter(n)` (at the first `select` after `n` values have been handled). Go's `select`
  picks among ready cases at random, so every run of a worker matches one such point.
- `Gstream.Stream` is the handle (`stream`, `isOpen`, `done`). Each source and stage is a method
  that runs its worker's loop to completion, proved to leave in the new channel exactly a pure
  function of the upstream values it handled, and to leave the unread rest upstream. `Skip` and
  `Distinct` keep their closure state (`curCnt`, `olds`) in worker objects whose `Step` is the
  callback passed to `execDefault`; `Take` keeps `cnt` as a loop variable, as the source does.
- `Stages` holds the pure functions (`MapSeq`, `FilterSeq`, `SkipSeq`, `TakeSeq`, `DistinctSeq`),
  each written as its worker runs (value after a prefix, then one more value), with lemmas
  relating each to a closed form or the promised property, and lemmas that a cancelled stage's
  output is a prefix of the uncancelled one.
- `Pipelines` composes source, one stage and a terminal as the library's tests do and states the
  end-to-end properties; the concrete runs of the tests of NewStream, GenerateStream, Take, Skip, Map, Filter and First
  are proved as methods
  (`SkipScenario`, `MapScenario`, ...).

The single-use guard is modelled as written: `newStream` sets `isOpen` to false and nothing sets
it, so `open` never reaches its panic (`Stream.Valid` includes `!isOpen`, and every method keeps
it); `Pipelines.GetChannelTwice` shows a second `GetChannel` on the same stream succeeding.

Remarks on the test file: the Skip example `[249..2234]` skipping 239 has 1747 values
(`stream_test.go:65` computes `last - start + 1 - skipNum`); `SkipScenario` proves 1747. `TestDistinct` checks nothing, since it ranges over the indices of a
list that stays empty (`stream_test.go:133-140`), so Distinct's properties are taken from
`stream.go:162-180`. The second half of `TestFirst` relies on cancellation winning the first
`select`; Go may instead pick the ready send, which corresponds to a later cancellation point.

## Model

| member | source | states |
|---|---|---|
| `Channels.Channel.constructor` | stream.go:37 | `make(chan ...)` yields an empty, open channel |
| `Channels.Channel.Send` | stream.go:47 | a send appends the value at the end of the pending queue, on an open channel |
| `Channels.Channel.Receive` | stream.go:27-30 | a receive yields the oldest pending value and removes it, or `None` on a drained closed channel |
| `Channels.Channel.Close` | stream.go:40 | closing keeps the pending values and marks the channel closed |
| `Gstream.Stream.constructor` | stream.go:16-18 | `newStream` wraps the channel with `isOpen` false and `done` open |
| `Gstream.Stream.Open` | stream.go:75-81 | `open` panics exactly when `isOpen`, otherwise returns the stored channel; it changes nothing |
| `Gstream.Stream.GetChannel` | stream.go:83-85 | goes through `open`: panics exactly when `isOpen`, and on a handle whose guard is down returns the stored channel |
| `Gstream.NewStream` | stream.go:36-53 | the new channel holds the slice's values in order up to the cancellation point (all of them under `Background`) and is closed |
| `Gstream.GenerateStream` | stream.go:55-73 | the channel holds the generator's first `n` results in order; the generator is called `n + 1` times |
| `Gstream.Stream.Take` | stream.go:87-115 | output is `TakeSeq(num, xs[..k])` for the `k` values before cancellation; upstream keeps `xs[min(num, k)..]`, so nothing past the `num`-th value is read |
| `Gstream.Stream.Skip` | stream.go:117-134 | output is `SkipSeq(num, xs[..k])`; upstream keeps `xs[k..]` (inside, a loop invariant ties the worker's `curCnt` to `SkipCount`) |
| `Gstream.Stream.Map` | stream.go:136-145 | output is `MapSeq(mapFunc, xs[..k])`; upstream keeps `xs[k..]` |
| `Gstream.Stream.Filter` | stream.go:147-160 | output is `FilterSeq(filter, xs[..k])`; upstream keeps `xs[k..]` |
| `Gstream.Distinct` | stream.go:162-180 | output is `DistinctSeq(xs[..k])`; upstream keeps `xs[k..]` (inside, a loop invariant keeps the output equal to the worker's `olds`) |
| `Gstream.Stream.First` | stream.go:182-188 | reads at most one value: the first pending one, or `None` on an empty closed stream; closes `done` |
| `Gstream.Stream.ToSlice` | stream.go:190-197 | returns every pending value in order and drains the channel; closes `done` |
| `Gstream.SkipWorker.constructor` | stream.go:123 | `curCnt` starts at 0 |
| `Gstream.SkipWorker.Step` | stream.go:124-130 | forwards the value when `curCnt >= num`, otherwise drops it and increments `curCnt`; `0 <= curCnt <= max(num, 0)` is kept |
| `Gstream.DistinctWorker.constructor` | stream.go:168 | `olds` starts empty |
| `Gstream.DistinctWorker.Step` | stream.go:169-177 | a value equal to one in `olds` is dropped; any other is appended to `olds` and forwarded; `olds` never holds two equal values |
| `Gstream.Contains` | stream.go:170-174 | the linear scan finds a match exactly when the value is in `olds` |
| `Stages.MapSeq` | stream.go:142 | Map emits exactly one value per upstream value |
| `Stages.MapElements` | stream.go:142 | the `i`-th emitted value is `mapFunc` of the `i`-th upstream value |
| `Stages.MapPrefix` | stream.go:20-34 | Map on a cut-short upstream emits a prefix of the full output |
| `Stages.FilterSeq` | stream.go:153-157 | Filter emits no more values than it reads |
| `Stages.FilterSound` | stream.go:153-157 | every emitted value satisfies the predicate |
| `Stages.FilterComplete` | stream.go:153-157 | every upstream value satisfying the predicate is emitted |
| `Stages.FilterSubsequence` | stream.go:153-157 | the output is an order-preserving subsequence of the upstream |
| `Stages.FilterPartition` | stream.go:153-157 | kept and dropped values together are the upstream as a multiset, so each satisfying value is emitted as often as it arrives |
| `Stages.FilterExtends` | stream.go:20-34 | handling more upstream values only extends Filter's output |
| `Stages.SkipCount` | stream.go:123-129 | `curCnt` never exceeds the number of values read, nor `max(num, 0)` |
| `Stages.SkipSeq` | stream.go:124-130 | Skip emits no more values than it reads |
| `Stages.SkipClosedForm` | stream.go:123-130 | `curCnt` ends at `min(max(num, 0), n)` and the output is the upstream from that index on |
| `Stages.SkipNonPositive` | stream.go:125 | for `num <= 0` Skip is the identity |
| `Stages.SkipPrefix` | stream.go:20-34 | Skip on a cut-short upstream emits a prefix of the full output |
| `Stages.TakeSeq` | stream.go:95-110 | Take emits at most `num` values and no more than it reads |
| `Stages.TakeClosedForm` | stream.go:93-110 | Take emits exactly the first `min(num, n)` upstream values |
| `Stages.TakePrefix` | stream.go:99-103 | Take on a cut-short upstream emits a prefix of the full output |
| `Stages.DistinctSeq` | stream.go:168-177 | `olds` has no duplicates, holds only upstream values, and holds every upstream value |
| `Stages.DistinctSubsequence` | stream.go:168-177 | Distinct's output is an order-preserving subsequence of the upstream |
| `Stages.DistinctFirstOccurrenceOrder` | stream.go:168-177 | Distinct emits values in the order of their first occurrence upstream |
| `Stages.DistinctExtends` | stream.go:20-34 | handling more upstream values only extends Distinct's output |
| `Pipelines.Collect` | stream_test.go:8-18 | `NewStream(s).ToSlice()` returns `s` exactly under `Background`, and a prefix of `s` of the cancellation length otherwise |
| `Pipelines.MapAll` | stream_test.go:92-114 | `r[i] == f(s[i])` for every emitted index; as many values as `s` has unless cancelled |
| `Pipelines.FilterAll` | stream_test.go:116-128 | only satisfying values, in upstream order; uncancelled, every satisfying value with its multiplicity |
| `Pipelines.SkipAll` | stream_test.go:61-90 | the output is (a prefix of) `s` from index `min(max(num, 0), len(s))` on; the identity for `num <= 0` |
| `Pipelines.TakeAll` | stream_test.go:41-59 | a prefix of `s` of at most `num` values; `min(num, len(s))` of them unless cancelled |
| `Pipelines.DistinctAll` | stream.go:162-180 | no duplicates, a subsequence of `s`, in first-occurrence order; uncancelled, every upstream value appears |
| `Pipelines.FirstOf` | stream_test.go:143-166 | the first value when the source sends one, `None` when it is empty or cancelled at once |
| `Pipelines.GetChannelTwice` | stream.go:75-85 | two `GetChannel` calls on one stream both succeed with the same channel |
| `Pipelines.NewStreamScenario` | stream_test.go:8-18 | `[1, 2, 3, 4, 5, 6]` comes back in order |
| `Pipelines.GenerateScenario` | stream_test.go:20-39 | a self-cancelling counting generator yields `n >= 9` values with `r[i] == i` |
| `Pipelines.SkipScenario` | stream_test.go:61-90 | skipping 239 of `[249..2234]` gives `[488..2234]`, 1747 values |
| `Pipelines.MapScenario` | stream_test.go:92-114 | squaring `[125..485]` gives `(125 + i)^2` at index `i`, 361 values |
| `Pipelines.FilterScenario` | stream_test.go:116-128 | filtering `[125..485]` for even values gives only even values, including 126 and 484 |
| `Pipelines.TakeScenario` | stream_test.go:41-59 | taking 20 from a generator counting from 123 gives `[123..142]` |
| `Pipelines.FirstScenario` | stream_test.go:143-166 | a counting generator's first value is 0; cancelled before its first `select`, nothing is found |

## Left out

- Concurrency: goroutines, the random choice of `select`, the timing of `ctx.Done()` and `done`, and backpressure. Each worker runs to completion when its stage is built; in a pipeline where every stream has a single reader and nothing is cancelled, the values each reader receives are the same as in any concurrent run (a source may send more values than any reader takes, see the worker-leak line), and cancellation is reduced to a per-worker cancellation point.
- Buffer sizes (`runtime.NumCPU()`, the capacity `num` of Take's channel): they affect blocking only, not order; channels are unbounded queues.
- Worker leaks: an upstream worker blocked after `Take` or `First` stops reading, and `done` not being forwarded upstream. The model only records that the unread values stay upstream.
- The `done` signal is a flag set by `First` and `ToSlice`; since the worker has already finished, closing it changes no value.
- Gstream.GenerateStream: modelled only up to a cancellation point, with the generator's results as a sequence; a generator stream that is never cancelled runs for ever, and the generator's side effects are not modelled.
- Go runtime panics are preconditions: sending on or closing a closed channel, closing `done` twice (`First`/`ToSlice` require `!doneClosed`), `make(chan, num)` with negative `num` (`Take` requires `num >= 0`), and `==` on non-comparable payloads (`Distinct` requires `T(==)`, which makes it a module-level method rather than a method of `Stream`).
- Several readers of one stream: since `open` never sets `isOpen`, two stages may be built on the same stream and race on its channel in Go, splitting its values between them in any order. The model captures one interleaving only: the reader built first takes its whole budget and later readers get what is left.
- Callbacks: `mapFunc`, `filter` and the generator are total, pure Dafny functions; a callback that panics or has side effects is not modelled.
- Payloads are a type parameter `T` rather than `interface{}`; the tests' type assertions are not modelled.
- The 16-value Distinct example (`[1,2,3,4,5,6,78,98,49,2,3,4,56,294,6,493]`) is not proved as a concrete run: unfolding it is too costly for the verifier. `Pipelines.DistinctAll` states the general properties that determine its result.
