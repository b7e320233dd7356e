// The daemon's event pipeline as a transition system. Four goroutines interleave: the watcher,
// the forwarder between the two channels, the sync engine, and readers of the status store. Every
// step is one of their atomic actions; time passes only between steps.
module Pipeline {
  import opened Wrappers
  import opened GoTime
  import opened Events
  import opened Debounce
  import opened Watching
  import opened SyncEngine
  import opened Flow
  import WatchTree
  import Status
  import SyncQueue

  datatype Setup = Setup(env: Env, queueCapacity: Status.Limited, maxEvents: Status.Limited)

  /** What has happened so far: the watcher's log, the events offered to the out channel and which
      of them were dropped there or at the queue, the events the engine consumed, and the events
      added to the status store. */
  datatype History = History(
    log: seq<Entry>,
    offered: seq<Event>,
    lostAtOut: set<nat>,
    lostAtQueue: set<nat>,
    consumed: seq<Event>,
    recorded: seq<Status.Event>)

  datatype State = State(
    clock: Time,
    started: bool,
    // the watcher goroutine
    pending: Pending,
    ready: seq<Event>,
    announced: bool,
    out: seq<Event>,
    // the forwarder goroutine
    held: Option<Event>,
    // the queue and the engine goroutine
    queue: seq<Event>,
    phase: Phase,
    // the status store
    status: Status.View,
    past: History)

  datatype Action =
    | Advance(dt: nat)
    | Start                              // watcher.Start
    | Receive(name: string, bits: bv32)  // watcher: handleEvent
    | Collect(batch: seq<Event>)         // watcher: first loop of flushPending, in some map order
    | Announce                           // watcher: AddEvent for the next ready event
    | Offer                              // watcher: try to send it
    | WatchError                         // watcher: an fsnotify error
    | Take                               // forwarder: receive from the out channel
    | Put                                // forwarder: Enqueue
    | Dequeue                            // engine: receive from the queue
    | BeginEvent | BeginTick | Finish    // engine: the two halves of a step
    | Stop                               // engine: context cancelled

  const WATCHING_MARK: Status.Fields := Mark(Status.Idle, "watching")
  const ERROR_MARK: Status.Fields := Mark(Status.Error, "fswatch error")

  ghost predicate Initial(setup: Setup, s: State) {
    && s.clock > ZERO
    && !s.started && s.pending == map[] && s.ready == [] && !s.announced && s.out == []
    && s.held == None && s.queue == [] && s.phase == Waiting
    && s.status == Status.AfterSetMaxEvents(Status.Initial(s.clock), setup.maxEvents)
    && s.past == History([], [], {}, {}, [], [])
  }

  ghost predicate Enabled(setup: Setup, s: State, a: Action) {
    match a
    case Advance(_) => true
    case Start => !s.started
    case Receive(_, _) => s.started && s.ready == []
    case Collect(batch) => s.started && s.ready == [] && IsReady(s.pending, s.clock, batch)
    case Announce => s.ready != [] && !s.announced
    case Offer => s.ready != [] && s.announced
    case WatchError => s.started && s.ready == []
    case Take => s.held.None? && s.out != []
    case Put => s.held.Some?
    case Dequeue => s.phase == Waiting && s.queue != []
    case BeginEvent => s.phase == Received
    case BeginTick => s.phase == Waiting
    case Finish => s.phase == Working
    case Stop => s.phase == Waiting
  }

  ghost function Update(s: State, mark: Status.Fields): State {
    s.(status := Status.AfterUpdate(s.status, mark, s.clock))
  }

  ghost function DoReceive(setup: Setup, s: State, name: string, bits: bv32): State {
    var env := setup.env;
    if WatchTree.Ignored(env.filter, name) || NormalizeOp(bits) == Unknown then s
    else
      s.(pending := Handled(env, s.pending, name, bits, s.clock),
         past := s.past.(log := s.past.log + [Accepted(name, NormalizeOp(bits), s.clock)]))
  }

  ghost function DoCollect(s: State, batch: seq<Event>): State {
    s.(pending := Undue(s.pending, s.clock), ready := batch,
       past := s.past.(log := s.past.log + [Flushed(s.clock, batch)]))
  }

  ghost function DoAnnounce(setup: Setup, s: State): State
    requires s.ready != []
  {
    var record := Record(setup.env, s.ready[0]);
    s.(announced := true, status := Status.AfterAddEvent(s.status, record, s.clock),
       past := s.past.(recorded := s.past.recorded + [record]))
  }

  ghost function DoOffer(s: State): State
    requires s.ready != []
  {
    var position := |s.past.offered|;
    s.(out := SyncQueue.TrySend(s.out, OUT_CAPACITY, s.ready[0]), ready := s.ready[1..], announced := false,
       past := s.past.(offered := s.past.offered + [s.ready[0]],
                       lostAtOut := s.past.lostAtOut + if |s.out| < OUT_CAPACITY then {} else {position}))
  }

  ghost function Held(s: State): seq<Event> { if s.held.Some? then [s.held.value] else [] }

  /** All events on their way, oldest first, from the consumed ones to the newest in the channel. */
  ghost function InFlight(s: State): seq<Event> { s.past.consumed + s.queue + Held(s) + s.out }

  ghost function Lost(s: State): set<nat> { s.past.lostAtOut + s.past.lostAtQueue }

  ghost function DoPut(setup: Setup, s: State): State
    requires s.held.Some?
  {
    var position := |s.past.consumed| + |s.queue|;
    var dropped :=
      if |s.queue| < setup.queueCapacity || position >= |Kept(s.past.offered, Lost(s))| then {}
      else {Origin(s.past.offered, Lost(s), position)};
    s.(queue := SyncQueue.TrySend(s.queue, setup.queueCapacity, s.held.value), held := None,
       past := s.past.(lostAtQueue := s.past.lostAtQueue + dropped))
  }

  ghost function DoTake(s: State): State
    requires s.out != []
  {
    s.(held := Some(s.out[0]), out := s.out[1..])
  }

  ghost function DoDequeue(s: State): State
    requires s.queue != []
  {
    s.(queue := s.queue[1..], phase := Received, past := s.past.(consumed := s.past.consumed + [s.queue[0]]))
  }

  ghost function Step(setup: Setup, s: State, a: Action): State
    requires Enabled(setup, s, a)
  {
    match a
    case Advance(dt) => s.(clock := s.clock + dt)
    case Start => Update(s, WATCHING_MARK).(started := true)
    case Receive(name, bits) => DoReceive(setup, s, name, bits)
    case Collect(batch) => DoCollect(s, batch)
    case Announce => DoAnnounce(setup, s)
    case Offer => DoOffer(s)
    case WatchError => Update(s, ERROR_MARK)
    case Take => DoTake(s)
    case Put => DoPut(setup, s)
    case Dequeue => DoDequeue(s)
    case BeginEvent => Update(s, EVENT_MARK).(phase := Working)
    case BeginTick => Update(s, TICK_MARK).(phase := Working)
    case Finish => Update(s, IDLE_MARK).(phase := Waiting)
    case Stop => Update(s, IDLE_MARK).(phase := Stopped)
  }

  // ---- Invariants ----

  /** The pending map refines the log; what was emitted has been offered or is about to be. */
  ghost predicate WatcherInv(s: State) {
    var log := s.past.log;
    && s.clock > ZERO
    && WellFormed(log) && (log != [] ==> Last(log).at <= s.clock)
    && Refines(s.pending, log)
    && Emissions(log) == s.past.offered + s.ready
    && (s.announced ==> s.ready != [])
    && (forall e | e in s.ready :: e.when > ZERO)
  }

  /** The events on their way are the offered ones without the dropped ones, in order. */
  ghost predicate FlowInv(setup: Setup, s: State) {
    var offered := s.past.offered;
    && Positions(offered, s.past.lostAtOut) && Positions(offered, s.past.lostAtQueue)
    && s.past.lostAtOut !! s.past.lostAtQueue
    && InFlight(s) == Kept(offered, Lost(s))
    && |s.out| <= OUT_CAPACITY && |s.queue| <= setup.queueCapacity
  }

  // The record of an event that is announced but not yet offered.
  ghost function Announced(setup: Setup, s: State): seq<Status.Event> {
    if s.announced && s.ready != [] then [Record(setup.env, s.ready[0])] else []
  }

  /** The status store records each emitted event just before it is offered, and agrees with the
      end of that record. */
  ghost predicate StatusInv(setup: Setup, s: State)
  {
    var recorded, v := s.past.recorded, s.status;
    && recorded == Records(setup.env, s.past.offered) + Announced(setup, s)
    && v.maxEvents == setup.maxEvents
    && v.ring == Status.Trim(recorded, setup.maxEvents) && v.recent == v.ring
    && v.fields.lastEvent == (if recorded == [] then "" else Status.Label(Last(recorded)))
  }

  /** The store says syncing only while the engine is between its two updates; its time is past. */
  ghost predicate PhaseInv(s: State) {
    && (s.status.fields.state == Status.Idle || s.status.fields.state == Status.Syncing
        || s.status.fields.state == Status.Error)
    && (s.status.fields.state == Status.Syncing ==> s.phase == Working)
    && ZERO < s.status.fields.updatedAt <= s.clock
  }

  ghost predicate Inv(setup: Setup, s: State)
  {
    WatcherInv(s) && FlowInv(setup, s) && StatusInv(setup, s) && PhaseInv(s)
  }

  lemma InitialInv(setup: Setup, s: State)
    requires Initial(setup, s)
    ensures Inv(setup, s)
  {
  }

  // What each invariant depends on.
  lemma WatcherFrame(s: State, s': State)
    requires WatcherInv(s) && s.clock <= s'.clock
    requires s'.pending == s.pending && s'.ready == s.ready && (s'.announced ==> s.ready != [])
    requires s'.past.log == s.past.log && s'.past.offered == s.past.offered
    ensures WatcherInv(s')
  {}

  lemma FlowFrame(setup: Setup, s: State, s': State)
    requires FlowInv(setup, s)
    requires s'.out == s.out && s'.held == s.held && s'.queue == s.queue
    requires s'.past.consumed == s.past.consumed && s'.past.offered == s.past.offered
    requires s'.past.lostAtOut == s.past.lostAtOut && s'.past.lostAtQueue == s.past.lostAtQueue
    ensures FlowInv(setup, s')
  {}

  lemma StatusFrame(setup: Setup, s: State, s': State)
    requires StatusInv(setup, s) && s'.status == s.status
    requires s'.past.recorded == s.past.recorded && s'.past.offered == s.past.offered
    requires Announced(setup, s') == Announced(setup, s)
    ensures StatusInv(setup, s')
  {}

  lemma ReceiveInv(setup: Setup, s: State, name: string, bits: bv32)
    requires Inv(setup, s) && s.ready == []
    ensures Inv(setup, DoReceive(setup, s, name, bits))
  {
    var s' := DoReceive(setup, s, name, bits);
    if s' != s {
      var e := Accepted(name, NormalizeOp(bits), s.clock);
      AcceptRefines(s.pending, s.past.log, name, NormalizeOp(bits), s.clock);
      InitOf(s.past.log, e);
      EmissionsAppend(s.past.log, e);
      FlowFrame(setup, s, s');
      StatusFrame(setup, s, s');
    }
  }

  lemma CollectInv(setup: Setup, s: State, batch: seq<Event>)
    requires Inv(setup, s) && s.ready == [] && IsReady(s.pending, s.clock, batch)
    ensures Inv(setup, DoCollect(s, batch))
  {
    var s' := DoCollect(s, batch);
    CollectWatcher(s, batch);
    FlowFrame(setup, s, s');
    StatusFrame(setup, s, s');
  }

  lemma CollectWatcher(s: State, batch: seq<Event>)
    requires WatcherInv(s) && s.ready == [] && IsReady(s.pending, s.clock, batch)
    ensures WatcherInv(DoCollect(s, batch))
  {
    FlushRefines(s.pending, s.past.log, s.clock, batch);
    InitOf(s.past.log, Flushed(s.clock, batch));
    EmissionsAppend(s.past.log, Flushed(s.clock, batch));
  }

  lemma AnnounceInv(setup: Setup, s: State)
    requires Inv(setup, s) && s.ready != [] && !s.announced
    ensures Inv(setup, DoAnnounce(setup, s))
  {
    var s' := DoAnnounce(setup, s);
    WatcherFrame(s, s');
    FlowFrame(setup, s, s');
    AnnounceStatus(setup, s);
  }

  lemma AnnounceStatus(setup: Setup, s: State)
    requires WatcherInv(s) && StatusInv(setup, s) && s.ready != [] && !s.announced
    ensures StatusInv(setup, DoAnnounce(setup, s))
  {
    var record := Record(setup.env, s.ready[0]);
    assert s.ready[0] in s.ready;
    assert Status.Stamp(record, s.clock) == record;
    Status.TrimTwice(s.past.recorded, setup.maxEvents, record);
  }

  lemma {:induction false} OfferInv(setup: Setup, s: State)
    requires Inv(setup, s) && s.ready != [] && s.announced
    ensures Inv(setup, DoOffer(s))
  {
    OfferWatcher(s);
    OfferFlow(setup, s);
    OfferStatus(setup, s);
  }

  lemma OfferWatcher(s: State)
    requires WatcherInv(s) && s.ready != []
    ensures WatcherInv(DoOffer(s))
  {
    assert s.ready == [s.ready[0]] + s.ready[1..];
    assert s.past.offered + s.ready == s.past.offered + [s.ready[0]] + s.ready[1..];
  }

  lemma OfferFlow(setup: Setup, s: State)
    requires FlowInv(setup, s) && s.ready != []
    ensures FlowInv(setup, DoOffer(s))
  {
    KeptAppend(s.past.offered, Lost(s), s.ready[0]);
    var s' := DoOffer(s);
    if |s.out| < OUT_CAPACITY {
      assert Lost(s') == Lost(s);
      assert InFlight(s') == InFlight(s) + [s.ready[0]];
    } else {
      assert Lost(s') == Lost(s) + {|s.past.offered|};
    }
  }

  lemma OfferStatus(setup: Setup, s: State)
    requires StatusInv(setup, s) && s.ready != [] && s.announced
    ensures StatusInv(setup, DoOffer(s))
  {
    var s' := DoOffer(s);
    assert Records(setup.env, s.past.offered + [s.ready[0]]) ==
           Records(setup.env, s.past.offered) + [Record(setup.env, s.ready[0])];
    assert s.past.recorded == Records(setup.env, s'.past.offered) + [];
  }

  lemma TakeInv(setup: Setup, s: State)
    requires Inv(setup, s) && s.held.None? && s.out != []
    ensures Inv(setup, DoTake(s))
  {
    WatcherFrame(s, DoTake(s));
    TakeFlow(setup, s);
    StatusFrame(setup, s, DoTake(s));
  }

  lemma TakeFlow(setup: Setup, s: State)
    requires FlowInv(setup, s) && s.held.None? && s.out != []
    ensures FlowInv(setup, DoTake(s))
  {
    var s' := DoTake(s);
    assert s.out == [s.out[0]] + s.out[1..];
    assert InFlight(s') == InFlight(s);
  }

  lemma DequeueInv(setup: Setup, s: State)
    requires Inv(setup, s) && s.phase == Waiting && s.queue != []
    ensures Inv(setup, DoDequeue(s))
  {
    WatcherFrame(s, DoDequeue(s));
    DequeueFlow(setup, s);
    StatusFrame(setup, s, DoDequeue(s));
  }

  lemma DequeueFlow(setup: Setup, s: State)
    requires FlowInv(setup, s) && s.queue != []
    ensures FlowInv(setup, DoDequeue(s))
  {
    var s' := DoDequeue(s);
    assert s.queue == [s.queue[0]] + s.queue[1..];
    assert InFlight(s') == InFlight(s);
  }

  lemma PutInv(setup: Setup, s: State)
    requires Inv(setup, s) && s.held.Some?
    ensures Inv(setup, DoPut(setup, s))
  {
    var s' := DoPut(setup, s);
    WatcherFrame(s, s');
    StatusFrame(setup, s, s');
    PutFlow(setup, s);
  }

  lemma PutFlow(setup: Setup, s: State)
    requires FlowInv(setup, s) && s.held.Some?
    ensures FlowInv(setup, DoPut(setup, s))
  {
    var s' := DoPut(setup, s);
    var before := s.past.consumed + s.queue;
    assert InFlight(s) == before + [s.held.value] + s.out;
    if |s.queue| < setup.queueCapacity {
      assert Lost(s') == Lost(s) && InFlight(s') == InFlight(s);
    } else {
      var m := |before|;
      LoseKept(s.past.offered, Lost(s), m);
      assert Lost(s') == Lost(s) + {Origin(s.past.offered, Lost(s), m)};
      assert InFlight(s)[..m] + InFlight(s)[m + 1..] == InFlight(s');
    }
  }

  // Every other step only marks the status store, moves the engine, or lets time pass.
  lemma MarkInv(setup: Setup, s: State, mark: Status.Fields, phase: Phase, started: bool)
    requires Inv(setup, s) && mark.lastEvent == "" && IsZero(mark.updatedAt)
    requires mark.state == Status.Idle || mark.state == Status.Error
             || (mark.state == Status.Syncing && phase == Working)
    ensures Inv(setup, Update(s, mark).(phase := phase, started := started))
  {
    var s' := Update(s, mark).(phase := phase, started := started);
    WatcherFrame(s, s');
    FlowFrame(setup, s, s');
  }

  lemma IdleInv(setup: Setup, s: State, clock: Time, phase: Phase)
    requires Inv(setup, s) && s.clock <= clock && (s.phase == phase || s.phase != Working)
    ensures Inv(setup, s.(clock := clock, phase := phase))
  {
    var s' := s.(clock := clock, phase := phase);
    WatcherFrame(s, s');
    FlowFrame(setup, s, s');
    StatusFrame(setup, s, s');
  }

  lemma {:induction false} WatcherStepInv(setup: Setup, s: State, a: Action)
    requires Inv(setup, s) && Enabled(setup, s, a)
    requires a.Start? || a.Receive? || a.Collect? || a.Announce? || a.Offer? || a.WatchError?
    ensures Inv(setup, Step(setup, s, a))
  {
    match a
    case Start => MarkInv(setup, s, WATCHING_MARK, s.phase, true);
    case Receive(name, bits) => ReceiveInv(setup, s, name, bits);
    case Collect(batch) => CollectInv(setup, s, batch);
    case Announce => AnnounceInv(setup, s);
    case Offer => OfferInv(setup, s);
    case WatchError => MarkInv(setup, s, ERROR_MARK, s.phase, s.started);
  }

  lemma EngineStepInv(setup: Setup, s: State, a: Action)
    requires Inv(setup, s) && Enabled(setup, s, a)
    requires a.BeginEvent? || a.BeginTick? || a.Finish? || a.Stop?
    ensures Inv(setup, Step(setup, s, a))
  {
    match a
    case BeginEvent => MarkInv(setup, s, EVENT_MARK, Working, s.started);
    case BeginTick => MarkInv(setup, s, TICK_MARK, Working, s.started);
    case Finish => MarkInv(setup, s, IDLE_MARK, Waiting, s.started);
    case Stop => MarkInv(setup, s, IDLE_MARK, Stopped, s.started);
  }

  /** Every step of every goroutine keeps the invariants. */
  lemma StepInv(setup: Setup, s: State, a: Action)
    requires Inv(setup, s) && Enabled(setup, s, a)
    ensures Inv(setup, Step(setup, s, a))
  {
    match a
    case Advance(dt) => IdleInv(setup, s, s.clock + dt, s.phase);
    case Take => TakeInv(setup, s);
    case Put => PutInv(setup, s);
    case Dequeue => DequeueInv(setup, s);
    case Start | Receive(_, _) | Collect(_) | Announce | Offer | WatchError => WatcherStepInv(setup, s, a);
    case BeginEvent | BeginTick | Finish | Stop => EngineStepInv(setup, s, a);
  }
}
