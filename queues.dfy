/** An unbounded FIFO queue, the stand-in for `asyncio.Queue`. */
module Queues {

  class Queue<T> {
    /** The items put and not yet taken, oldest first. */
    var items: seq<T>

    constructor ()
      ensures items == []
    {
      items := [];
    }

    /** `put_nowait(x)`: never blocks, the queue is unbounded. */
    method Put(x: T)
      modifies this
      ensures items == old(items) + [x]
    {
      items := items + [x];
    }

    /** `await get()` once an item is available: takes the oldest item. */
    method Get() returns (x: T)
      requires items != []
      modifies this
      ensures x == old(items)[0] && items == old(items)[1..]
    {
      x := items[0];
      items := items[1..];
    }
  }
}
