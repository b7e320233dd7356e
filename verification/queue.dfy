// Bounded lossy channels: a send that would block drops the event instead.
module SyncQueue {
  import opened Events

  const DEFAULT_CAPACITY: int := 1024

  /** A select with a default branch: the event is buffered if there is room. */
  function TrySend(buffer: seq<Event>, capacity: int, evt: Event): seq<Event> {
    if |buffer| < capacity then buffer + [evt] else buffer
  }

  class Queue {
    var ch: seq<Event>
    const capacity: int

    ghost predicate Valid()
      reads this
    {
      0 < capacity && |ch| <= capacity
    }

    // NewQueue.
    constructor (requested: int)
      ensures Valid() && ch == []
      ensures capacity == if requested > 0 then requested else 1024
    {
      capacity := if requested <= 0 then DEFAULT_CAPACITY else requested;
      ch := [];
    }

    method Enqueue(evt: Event)
      requires Valid()
      modifies this
      ensures Valid() && ch == TrySend(old(ch), capacity, evt)
    {
      if |ch| < capacity {
        ch := ch + [evt];
      }
    }

    // A receive from Channel().
    method Receive() returns (evt: Event)
      requires Valid() && ch != []
      modifies this
      ensures Valid() && [evt] + ch == old(ch)
    {
      evt := ch[0];
      ch := ch[1..];
    }
  }
}
