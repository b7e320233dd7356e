// The sync engine: a loop that marks the status store as syncing around each step.
module SyncEngine {
  import opened GoTime
  import opened Events
  import Status
  import SyncQueue

  /** Where the engine's loop stands: waiting, about to process a received event, between the two
      status updates of a step, or returned. */
  datatype Phase = Waiting | Received | Working | Stopped

  // The snapshots the engine passes to Update; last event and time are left out.
  function Mark(state: Status.State, message: string): Status.Fields {
    Status.Fields(state, message, "", ZERO)
  }

  const EVENT_MARK: Status.Fields := Mark(Status.Syncing, "processing event")
  const TICK_MARK: Status.Fields := Mark(Status.Syncing, "sync tick")
  const IDLE_MARK: Status.Fields := Mark(Status.Idle, "idle")

  class Engine {
    var phase: Phase

    constructor ()
      ensures phase == Waiting
    {
      phase := Waiting;
    }

    method Dequeue(queue: SyncQueue.Queue) returns (evt: Event)
      requires phase == Waiting && queue.Valid() && queue.ch != []
      modifies this, queue
      ensures phase == Received && queue.Valid() && [evt] + queue.ch == old(queue.ch)
    {
      evt := queue.Receive();
      phase := Received;
    }

    // First half of handleEvent.
    method BeginEvent(store: Status.Store, now: Time)
      requires phase == Received && store.Valid()
      modifies this, store
      ensures phase == Working && store.Valid() && store.buf == old(store.buf)
      ensures store.Contents() == old(Status.AfterUpdate(store.Contents(), EVENT_MARK, now))
    {
      store.Update(EVENT_MARK, now);
      phase := Working;
    }

    // First half of a ticker step.
    method BeginTick(store: Status.Store, now: Time)
      requires phase == Waiting && store.Valid()
      modifies this, store
      ensures phase == Working && store.Valid() && store.buf == old(store.buf)
      ensures store.Contents() == old(Status.AfterUpdate(store.Contents(), TICK_MARK, now))
    {
      store.Update(TICK_MARK, now);
      phase := Working;
    }

    // Second half of either.
    method Finish(store: Status.Store, now: Time)
      requires phase == Working && store.Valid()
      modifies this, store
      ensures phase == Waiting && store.Valid() && store.buf == old(store.buf)
      ensures store.Contents() == old(Status.AfterUpdate(store.Contents(), IDLE_MARK, now))
    {
      store.Update(IDLE_MARK, now);
      phase := Waiting;
    }

    // ctx.Done.
    method Stop(store: Status.Store, now: Time)
      requires phase == Waiting && store.Valid()
      modifies this, store
      ensures phase == Stopped && store.Valid() && store.buf == old(store.buf)
      ensures store.Contents() == old(Status.AfterUpdate(store.Contents(), IDLE_MARK, now))
    {
      store.Update(IDLE_MARK, now);
      phase := Stopped;
    }
  }
}
