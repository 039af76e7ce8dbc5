/** The cancellation a worker observes.

    A worker in the pipeline stops at the first `select` in which a cancellation signal wins:
    the governing context's `Done()` channel or the stream's own `done` channel. Which case a
    Go `select` picks is not determined, so the model names the point instead: `Background`
    is never cancelled, and `CancelledAfter(n)` is observed by a worker at the first `select`
    after it has handled `n` values. Every interleaving of a run corresponds to some such point. */
module Contexts {
  import opened Sequences

  datatype Context = Background | CancelledAfter(n: nat) {

    /** True when a worker that has handled `handled` values sees the cancellation in its
        next `select`. */
    predicate Done(handled: nat) {
      CancelledAfter? && n <= handled
    }

    /** The number of values a worker handles from a source of `available` values before it
        stops: all of them, or the cancellation point if that comes first. */
    function Budget(available: nat): (k: nat)
      ensures k <= available
    {
      if Background? then available else Min(n, available)
    }
  }
}
