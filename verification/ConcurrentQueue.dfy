/** The queue of ConcurrentQueue.h. Each method holds the queue's mutex for its whole body. */
module ConcurrentQueue {
  import opened Wrappers

  class Queue<T> {
    var items: seq<T>

    constructor ()
      ensures items == []
    {
      items := [];
    }

    method Push(data: T)
      modifies this
      ensures items == old(items) + [data]
    {
      items := items + [data];
    }

    predicate Empty()
      reads this
    {
      items == []
    }

    method TryPop() returns (popped: Option<T>)
      modifies this
      ensures popped.None? <==> old(items) == []
      ensures popped.Some? ==> old(items) == [popped.value] + items
      ensures popped.None? ==> items == old(items)
    {
      if items == [] {
        return None;
      }
      popped := Some(items[0]);
      items := items[1..];
    }

    /**
      The functor is applied to the front element, which is then removed, until the queue is empty.
      `applied` lists the applications; the functor must not throw and cannot reach the queue.
     */
    method ApplyToAll() returns (applied: seq<T>)
      modifies this
      ensures items == [] && applied == old(items)
    {
      applied := [];
      while !Empty()
        invariant applied + items == old(items)
        decreases |items|
      {
        applied := applied + [items[0]];
        items := items[1..];
      }
    }
  }
}
