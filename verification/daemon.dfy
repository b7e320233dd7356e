// The daemon's objects and goroutine steps. Each method is one atomic action of one goroutine and
// is proved to be that step of the transition system; so a run of the objects under any schedule is
// a run of the system.
module Daemon {
  import opened Wrappers
  import opened GoTime
  import opened Events
  import opened Debounce
  import opened Watching
  import opened SyncEngine
  import opened Pipeline
  import opened Runs
  import WatchTree
  import Status
  import SyncQueue

  class Daemon {
    const setup: Setup
    const watcher: Watcher
    const queue: SyncQueue.Queue
    const engine: Engine
    const store: Status.Store
    var clock: Time
    var started: bool
    // The forwarder's local variable.
    var held: Option<Event>
    ghost var past: History

    ghost predicate Valid()
      reads this, watcher, queue, store
    {
      && watcher.Valid() && queue.Valid() && store.Valid()
      && watcher.env == setup.env && queue.capacity == setup.queueCapacity
    }

    ghost function Current(): State
      requires Valid()
      reads this, watcher, queue, engine, store, store.buf, store.recent
    {
      State(clock, started, watcher.pending, watcher.ready, watcher.announced, watcher.out, held,
            queue.ch, engine.phase, store.Contents(), past)
    }

    // newStatusStore, newSyncQueue, NewEngine, NewWatcher and NewDaemon.
    constructor (env: Env, eventLogSize: Status.Limited, syncQueueSize: Status.Limited, now: Time)
      requires now > ZERO
      ensures Valid() && Initial(setup, Current())
      ensures setup == Setup(env, syncQueueSize, eventLogSize)
      ensures fresh(watcher) && fresh(queue) && fresh(engine) && fresh(store) && fresh(store.buf)
    {
      setup := Setup(env, syncQueueSize, eventLogSize);
      var s := new Status.Store(now);
      s.SetMaxEvents(eventLogSize);
      store := s;
      queue := new SyncQueue.Queue(syncQueueSize);
      engine := new Engine();
      watcher := new Watcher(env);
      clock := now;
      started := false;
      held := None;
      past := History([], [], {}, {}, [], []);
    }

    method Sleep(dt: nat)
      requires Valid()
      modifies this
      ensures Valid() && Moves(setup, old(Current()), Advance(dt), Current())
    {
      clock := clock + dt;
    }

    /** Watcher.Start; root is the tree at the sync root, None if it cannot be created. Events are
        processed only if the whole tree could be registered. */
    method StartWatcher(root: Option<WatchTree.Node>, addable: string -> bool) returns (ok: bool)
      requires Valid() && !started
      modifies this, watcher, store
      ensures Valid() && store.buf == old(store.buf)
      ensures ok <==> setup.env.syncRoot != "" && root.Some?
                      && !Broken(setup.env.filter,
                                WatchTree.Visits(setup.env.filter, setup.env.syncRoot, root.value), addable)
      ensures if ok then Moves(setup, old(Current()), Start, Current()) else Current() == old(Current())
      ensures ok ==> watcher.watched ==
                     old(watcher.watched) + Directories(setup.env.filter, setup.env.syncRoot, root.value)
    {
      if setup.env.syncRoot == "" || root.None? {
        return false;
      }
      var failed := watcher.AddRecursive(setup.env.syncRoot, root.value, addable);
      if failed {
        return false;
      }
      store.Update(WATCHING_MARK, clock);
      started := true;
      return true;
    }

    method ReceiveEvent(name: string, bits: bv32, stat: Option<WatchTree.Node>, addable: string -> bool)
      requires Valid() && started && watcher.ready == []
      modifies this, watcher
      ensures Valid() && Moves(setup, old(Current()), Receive(name, bits), Current())
    {
      past := DoReceive(setup, Current(), name, bits).past;
      watcher.HandleEvent(name, bits, stat, addable, clock);
    }

    method CollectReady()
      requires Valid() && started && watcher.ready == []
      modifies this, watcher
      ensures Valid() && Moves(setup, old(Current()), Collect(watcher.ready), Current())
    {
      watcher.CollectReady(clock);
      past := past.(log := past.log + [Flushed(clock, watcher.ready)]);
    }

    method AnnounceNext()
      requires Valid() && watcher.ready != [] && !watcher.announced
      modifies this, watcher, store, store.buf
      ensures Valid() && (store.buf == old(store.buf) || fresh(store.buf))
      ensures Moves(setup, old(Current()), Announce, Current())
    {
      past := DoAnnounce(setup, Current()).past;
      watcher.Announce(store, clock);
    }

    method OfferNext()
      requires Valid() && watcher.ready != [] && watcher.announced
      modifies this, watcher
      ensures Valid() && Moves(setup, old(Current()), Offer, Current())
    {
      past := DoOffer(Current()).past;
      watcher.Offer();
    }

    method ReportError()
      requires Valid() && started && watcher.ready == []
      modifies store
      ensures Valid() && store.buf == old(store.buf) && Moves(setup, old(Current()), WatchError, Current())
    {
      store.Update(ERROR_MARK, clock);
    }

    // The forwarder's loop body, in two steps.
    method ForwardTake()
      requires Valid() && held.None? && watcher.out != []
      modifies this, watcher
      ensures Valid() && Moves(setup, old(Current()), Take, Current())
    {
      held := Some(watcher.out[0]);
      watcher.out := watcher.out[1..];
    }

    method ForwardPut()
      requires Valid() && held.Some?
      modifies this, queue
      ensures Valid() && Moves(setup, old(Current()), Put, Current())
    {
      past := DoPut(setup, Current()).past;
      queue.Enqueue(held.value);
      held := None;
    }

    method EngineDequeue()
      requires Valid() && engine.phase == Waiting && queue.ch != []
      modifies this, queue, engine
      ensures Valid() && Moves(setup, old(Current()), Dequeue, Current())
    {
      ghost var before := queue.ch;
      var evt := engine.Dequeue(queue);
      assert evt == before[0] && queue.ch == before[1..];
      past := past.(consumed := past.consumed + [evt]);
    }

    method EngineBeginEvent()
      requires Valid() && engine.phase == Received
      modifies engine, store
      ensures Valid() && store.buf == old(store.buf) && Moves(setup, old(Current()), BeginEvent, Current())
    {
      engine.BeginEvent(store, clock);
    }

    method EngineBeginTick()
      requires Valid() && engine.phase == Waiting
      modifies engine, store
      ensures Valid() && store.buf == old(store.buf) && Moves(setup, old(Current()), BeginTick, Current())
    {
      engine.BeginTick(store, clock);
    }

    method EngineFinish()
      requires Valid() && engine.phase == Working
      modifies engine, store
      ensures Valid() && store.buf == old(store.buf) && Moves(setup, old(Current()), Finish, Current())
    {
      engine.Finish(store, clock);
    }

    method EngineStop()
      requires Valid() && engine.phase == Waiting
      modifies engine, store
      ensures Valid() && store.buf == old(store.buf) && Moves(setup, old(Current()), Stop, Current())
    {
      engine.Stop(store, clock);
    }

    method LaunchTurn(root: Option<WatchTree.Node>, addable: string -> bool) returns (ghost a: Action)
      requires Valid()
      modifies this, watcher, store
      ensures Valid() && store.buf == old(store.buf)
      ensures Moves(setup, old(Current()), a, Current())
    {
      a := Advance(0);
      if started {
        return;
      }
      var ok := StartWatcher(root, addable);
      if ok {
        a := Start;
      }
    }

    // One step of the watcher goroutine, if it can take the chosen one.
    method WatcherTurn(turn: Turn) returns (ghost a: Action)
      requires Valid()
      modifies this, watcher, store, store.buf
      ensures Valid() && (store.buf == old(store.buf) || fresh(store.buf))
      ensures Moves(setup, old(Current()), a, Current())
    {
      if turn.FsEvent? && started && watcher.ready == [] {
        a := Receive(turn.name, turn.bits);
        ReceiveEvent(turn.name, turn.bits, turn.stat, turn.addable);
      } else if turn.FlushTick? && started && watcher.ready == [] {
        CollectReady();
        a := Collect(watcher.ready);
      } else if turn.FsError? && started && watcher.ready == [] {
        a := WatchError;
        ReportError();
      } else if turn.Emit? && watcher.ready != [] && !watcher.announced {
        a := Announce;
        AnnounceNext();
      } else if turn.Emit? && watcher.ready != [] {
        a := Offer;
        OfferNext();
      } else {
        a := Advance(0);
        Sleep(0);
      }
    }

    // One step of the forwarder or the engine.
    method OtherTurn(turn: Turn) returns (ghost a: Action)
      requires Valid()
      modifies this, watcher, queue, engine, store
      ensures Valid() && store.buf == old(store.buf)
      ensures Moves(setup, old(Current()), a, Current())
    {
      if turn.Forward? && held.Some? {
        a := Put;
        ForwardPut();
      } else if turn.Forward? && watcher.out != [] {
        a := Take;
        ForwardTake();
      } else if turn.Engine? && engine.phase == Received {
        a := BeginEvent;
        EngineBeginEvent();
      } else if turn.Engine? && engine.phase == Working {
        a := Finish;
        EngineFinish();
      } else if turn.Engine? && engine.phase == Waiting && queue.ch != [] {
        a := Dequeue;
        EngineDequeue();
      } else if turn.SyncTick? && engine.phase == Waiting {
        a := BeginTick;
        EngineBeginTick();
      } else if turn.Cancel? && engine.phase == Waiting {
        a := Stop;
        EngineStop();
      } else {
        a := Advance(0);
        Sleep(0);
      }
    }

    /** Whatever the schedule and the outside world do, the objects only ever take steps of the
        transition system; so every property of its reachable states holds of them. */
    method Run(schedule: seq<Turn>)
      requires Valid() && Reachable(setup, Current())
      modifies this, watcher, queue, engine, store, store.buf
      ensures Valid() && Reachable(setup, Current()) && Inv(setup, Current())
    {
      for i := 0 to |schedule|
        invariant Valid() && (store.buf == old(store.buf) || fresh(store.buf))
        invariant Reachable(setup, Current())
      {
        ghost var before := Current();
        ghost var a: Action;
        match schedule[i] {
          case Pass(dt) =>
            a := Advance(dt);
            Sleep(dt);
          case Launch(root, addable) =>
            a := LaunchTurn(root, addable);
          case FsEvent(_, _, _, _) | FlushTick | FsError | Emit =>
            a := WatcherTurn(schedule[i]);
          case Forward | Engine | SyncTick | Cancel =>
            a := OtherTurn(schedule[i]);
        }
        ReachableStep(setup, before, a, Current());
      }
      ReachableInv(setup, Current());
    }
  }

  /** A newly wired daemon, run under any schedule. */
  method Launched(env: Env, eventLogSize: Status.Limited, syncQueueSize: Status.Limited, now: Time, schedule: seq<Turn>)
    returns (daemon: Daemon)
    requires now > ZERO
    ensures daemon.Valid() && daemon.setup == Setup(env, syncQueueSize, eventLogSize)
    ensures Reachable(daemon.setup, daemon.Current()) && Inv(daemon.setup, daemon.Current())
  {
    daemon := new Daemon(env, eventLogSize, syncQueueSize, now);
    InitialReachable(daemon.setup, daemon.Current());
    daemon.Run(schedule);
  }

  /** Who runs next, and with what input from outside. */
  datatype Turn =
    | Pass(dt: nat)
    | Launch(root: Option<WatchTree.Node>, canAdd: string -> bool)
    | FsEvent(name: string, bits: bv32, stat: Option<WatchTree.Node>, addable: string -> bool)
    | FlushTick
    | FsError
    | Emit
    | Forward
    | Engine
    | SyncTick
    | Cancel
}
