/** A Go channel seen by a single reader after its sole writer has run: a FIFO queue of the
    values sent and not yet received, and whether the writer has closed it. */
module Channels {
  import opened Wrappers

  class Channel<T> {
    /** Values sent and not yet received, oldest first. */
    var pending: seq<T>
    /** Set by `close(ch)`; a closed channel delivers its pending values and then `ok == false`. */
    var closed: bool

    /** `make(chan T, size)`: an empty, open channel (the buffer size does not affect order). */
    constructor ()
      ensures pending == [] && !closed
    {
      pending := [];
      closed := false;
    }

    /** `ch <- v`. Sending on a closed channel panics in Go, so it is excluded here. */
    method Send(v: T)
      requires !closed
      modifies this
      ensures pending == old(pending) + [v] && !closed
    {
      pending := pending + [v];
    }

    /** `close(ch)`. Closing twice panics in Go, so it is excluded here. */
    method Close()
      requires !closed
      modifies this
      ensures closed && pending == old(pending)
    {
      closed := true;
    }

    /** `v, ok := <-ch`: the oldest pending value, or `None` once a closed channel is drained.
        A receive that would block for ever (open and empty) is excluded. */
    method Receive() returns (r: Option<T>)
      requires closed || pending != []
      modifies this
      ensures closed == old(closed)
      ensures old(pending) == [] ==> r == None && pending == []
      ensures old(pending) != [] ==> r == Some(old(pending)[0]) && pending == old(pending)[1..]
    {
      if pending == [] {
        r := None;
      } else {
        r := Some(pending[0]);
        pending := pending[1..];
      }
    }
  }
}
