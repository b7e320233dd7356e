// What holds in every run of the pipeline, whatever the interleaving.
module Runs {
  import opened Wrappers
  import opened GoTime
  import opened Events
  import opened Debounce
  import opened Watching
  import opened SyncEngine
  import opened Flow
  import opened Pipeline
  import Status
  import WatchTree

  ghost predicate Moves(setup: Setup, s: State, a: Action, s': State) {
    Enabled(setup, s, a) && s' == Step(setup, s, a)
  }

  /** A run: the states before, between and after the actions. */
  ghost predicate IsRun(setup: Setup, states: seq<State>, actions: seq<Action>) {
    && |states| == |actions| + 1
    && Initial(setup, states[0])
    && forall i | 0 <= i < |actions| :: Moves(setup, states[i], actions[i], states[i + 1])
  }

  ghost predicate Reachable(setup: Setup, s: State) {
    exists states, actions :: IsRun(setup, states, actions) && s == states[|actions|]
  }

  /** A run can be empty... */
  lemma InitialReachable(setup: Setup, s: State)
    requires Initial(setup, s)
    ensures Reachable(setup, s)
  {
    assert IsRun(setup, [s], []);
  }

  /** ...and goes on with any enabled action. */
  lemma ReachableStep(setup: Setup, s: State, a: Action, s': State)
    requires Reachable(setup, s) && Moves(setup, s, a, s')
    ensures Reachable(setup, s')
  {
    var states, actions :| IsRun(setup, states, actions) && s == states[|actions|];
    var states', actions' := states + [s'], actions + [a];
    forall i | 0 <= i < |actions'| ensures Moves(setup, states'[i], actions'[i], states'[i + 1]) {
      if i < |actions| {
        assert Moves(setup, states[i], actions[i], states[i + 1]);
      }
    }
    assert IsRun(setup, states', actions');
  }

  lemma {:induction false} RunInv(setup: Setup, states: seq<State>, actions: seq<Action>, i: nat)
    requires IsRun(setup, states, actions) && i <= |actions|
    ensures Inv(setup, states[i])
  {
    if i == 0 {
      InitialInv(setup, states[0]);
    } else {
      RunInv(setup, states, actions, i - 1);
      assert Moves(setup, states[i - 1], actions[i - 1], states[i - 1 + 1]);
      MoveInv(setup, states[i - 1], actions[i - 1], states[i]);
    }
  }

  lemma MoveInv(setup: Setup, s: State, a: Action, s': State)
    requires Inv(setup, s) && Moves(setup, s, a, s')
    ensures Inv(setup, s')
  {
    StepInv(setup, s, a);
  }

  lemma ReachableInv(setup: Setup, s: State)
    requires Reachable(setup, s)
    ensures Inv(setup, s)
  {
    var states, actions :| IsRun(setup, states, actions) && s == states[|actions|];
    RunInv(setup, states, actions, |actions|);
  }

  // ---- Conservation ----

  /** The position m of the pipeline, counted from the oldest consumed event, holds the n-th
      offered event. */
  ghost predicate Holds(s: State, m: nat, n: nat) {
    m < |InFlight(s)| && InFlight(s) == Kept(s.past.offered, Lost(s)) && Origin(s.past.offered, Lost(s), m) == n
  }

  /** In every reachable state the pipeline, read from the consumed events back to the out channel,
      holds the offered events without the dropped ones, in the order they were offered. Neither
      buffer overflows. */
  lemma Conservation(setup: Setup, s: State)
    requires Reachable(setup, s)
    ensures s.past.consumed + s.queue + Held(s) + s.out == Kept(s.past.offered, s.past.lostAtOut + s.past.lostAtQueue)
    ensures |s.past.offered| ==
            |s.past.lostAtOut| + |s.past.lostAtQueue| + |s.past.consumed| + |s.queue| + |Held(s)| + |s.out|
    ensures |s.out| <= 256 && |s.queue| <= setup.queueCapacity
  {
    ReachableInv(setup, s);
    KeptCount(s.past.offered, Lost(s));
  }

  /** So each offered event is in exactly one place: dropped at the out channel, dropped at the
      queue, or at one position on its way. */
  lemma OnePlace(setup: Setup, s: State, n: nat)
    requires Reachable(setup, s) && n < |s.past.offered|
    ensures !(n in s.past.lostAtOut && n in s.past.lostAtQueue)
    ensures (exists m :: Holds(s, m, n)) <==> n !in s.past.lostAtOut && n !in s.past.lostAtQueue
    ensures forall m, m' | Holds(s, m, n) && Holds(s, m', n) :: m == m'
  {
    ReachableInv(setup, s);
    HeldUnlessLost(setup, s, n);
    forall m, m' | Holds(s, m, n) && Holds(s, m', n) ensures m == m' {
      HeldAtMostOnce(s, n, m, m');
    }
  }

  lemma HeldUnlessLost(setup: Setup, s: State, n: nat)
    requires FlowInv(setup, s) && n < |s.past.offered|
    ensures (exists m :: Holds(s, m, n)) <==> n !in Lost(s)
  {
    if n !in Lost(s) {
      var m := OriginOnto(s.past.offered, Lost(s), n);
      assert Holds(s, m, n);
    }
  }

  lemma HeldAtMostOnce(s: State, n: nat, m: nat, m': nat)
    requires Holds(s, m, n) && Holds(s, m', n)
    ensures m == m'
  {
    if m < m' {
      OriginOrder(s.past.offered, Lost(s), m, m');
    } else if m' < m {
      OriginOrder(s.past.offered, Lost(s), m', m);
    }
  }

  /** An event is dropped only where the buffer it is being sent to is full, and then it is the
      event being sent: at the out channel the newly offered one... */
  lemma DropAtOut(setup: Setup, s: State, a: Action)
    requires Reachable(setup, s) && Enabled(setup, s, a)
    ensures var s' := Step(setup, s, a);
            && (a == Offer && |s.out| == OUT_CAPACITY ==>
                  s'.out == s.out && InFlight(s') == InFlight(s)
                  && s'.past.lostAtOut == s.past.lostAtOut + {|s.past.offered|})
            && (a == Offer && |s.out| < OUT_CAPACITY ==>
                  s'.out == s.out + [s.ready[0]] && InFlight(s') == InFlight(s) + [s.ready[0]])
            && (a == Take ==> s.held.None? && s.out == Held(s') + s'.out && InFlight(s') == InFlight(s))
            && (a != Offer && a != Take ==> s'.out == s.out)
            && (!(a == Offer && |s.out| == OUT_CAPACITY) ==> s'.past.lostAtOut == s.past.lostAtOut)
  {
    Conservation(setup, s);
    if a == Offer {
      OfferMoves(s);
    } else if a == Take {
      assert s.out == [s.out[0]] + s.out[1..];
    } else {
      OutUntouched(setup, s, a);
    }
  }

  lemma OfferMoves(s: State)
    requires s.ready != [] && |s.out| <= OUT_CAPACITY
    ensures var s' := DoOffer(s);
            if |s.out| == OUT_CAPACITY
            then s'.out == s.out && InFlight(s') == InFlight(s)
                 && s'.past.lostAtOut == s.past.lostAtOut + {|s.past.offered|}
            else s'.out == s.out + [s.ready[0]] && InFlight(s') == InFlight(s) + [s.ready[0]]
                 && s'.past.lostAtOut == s.past.lostAtOut
  {}

  lemma OutUntouched(setup: Setup, s: State, a: Action)
    requires Enabled(setup, s, a) && a != Offer && a != Take
    ensures Step(setup, s, a).out == s.out && Step(setup, s, a).past.lostAtOut == s.past.lostAtOut
  {}

  lemma PutOrigin(setup: Setup, s: State) returns (n: nat)
    requires FlowInv(setup, s) && s.held.Some? && |s.queue| >= setup.queueCapacity
    ensures Holds(s, |s.past.consumed| + |s.queue|, n) && s.past.offered[n] == s.held.value
    ensures DoPut(setup, s).past.lostAtQueue == s.past.lostAtQueue + {n}
  {
    var m := |s.past.consumed| + |s.queue|;
    assert InFlight(s)[m] == s.held.value;
    n := Origin(s.past.offered, Lost(s), m);
  }

  /** ...and at the queue the one the forwarder holds. */
  lemma DropAtQueue(setup: Setup, s: State, a: Action)
    requires Reachable(setup, s) && Enabled(setup, s, a)
    ensures a == Put && |s.queue| == setup.queueCapacity ==>
              && Step(setup, s, a).queue == s.queue
              && exists n: nat :: Holds(s, |s.past.consumed| + |s.queue|, n) && s.past.offered[n] == s.held.value
                          && Step(setup, s, a).past.lostAtQueue == s.past.lostAtQueue + {n}
    ensures !(a == Put && |s.queue| == setup.queueCapacity) ==>
              Step(setup, s, a).past.lostAtQueue == s.past.lostAtQueue
              && Step(setup, s, a).past.consumed + Step(setup, s, a).queue ==
                 s.past.consumed + s.queue + if a == Put then [s.held.value] else []
  {
    ReachableInv(setup, s);
    if a == Put && |s.queue| == setup.queueCapacity {
      var n := PutOrigin(setup, s);
    } else {
      QueueMoves(setup, s, a);
    }
  }

  lemma QueueMoves(setup: Setup, s: State, a: Action)
    requires Enabled(setup, s, a) && (a == Put ==> |s.queue| < setup.queueCapacity)
    ensures var s' := Step(setup, s, a);
            && s'.past.lostAtQueue == s.past.lostAtQueue
            && s'.past.consumed + s'.queue == s.past.consumed + s.queue + if a == Put then [s.held.value] else []
  {
    if a == Put {
      assert DoPut(setup, s).queue == s.queue + [s.held.value];
    } else if a == Dequeue {
      assert s.queue == [s.queue[0]] + s.queue[1..];
    } else {
      QueueUntouched(setup, s, a);
    }
  }

  lemma QueueUntouched(setup: Setup, s: State, a: Action)
    requires Enabled(setup, s, a) && a != Put && a != Dequeue
    ensures var s' := Step(setup, s, a);
            s'.queue == s.queue && s'.past.consumed == s.past.consumed && s'.past.lostAtQueue == s.past.lostAtQueue
  {}

  // ---- Debouncing, end to end ----

  /** The watcher's behaviour in every run is the one the log specification describes: the pending
      map is the merge of the unflushed events, every flush emitted what it had to, and what was
      emitted is what was offered or is next. */
  lemma DebounceRefinement(setup: Setup, s: State)
    requires Reachable(setup, s)
    ensures Refines(s.pending, s.past.log) && WellFormed(s.past.log)
    ensures Emissions(s.past.log) == s.past.offered + s.ready
  {
    ReachableInv(setup, s);
  }

  /** A raw event of an ignored path or without a known operation is not accepted; any other is, and
      gives its path, and no other, a new deadline. */
  lemma ReceiveExact(setup: Setup, s: State, name: string, bits: bv32)
    requires Enabled(setup, s, Receive(name, bits))
    ensures var s' := Step(setup, s, Receive(name, bits));
            if WatchTree.Ignored(setup.env.filter, name) || bits & 31 == 0 then s' == s
            else
              && s' == s.(pending := s'.pending, past := s.past.(log := s'.past.log))
              && s'.past.log == s.past.log + [Accepted(name, NormalizeOp(bits), s.clock)]
              && name in s'.pending && s'.pending[name].when == s.clock + 300_000_000
              && s'.pending == s.pending[name := s'.pending[name]]
  {
    NoOperation(bits);
  }

  /** Each flush emits exactly what is due, and leaves every other path as it was. */
  lemma FlushCorrect(setup: Setup, s: State, batch: seq<Event>)
    requires Reachable(setup, s) && Enabled(setup, s, Collect(batch))
    ensures CorrectFlush(s.past.log, s.clock, batch)
    ensures Step(setup, s, Collect(batch)).ready == batch
    ensures Step(setup, s, Collect(batch)).past.log == s.past.log + [Flushed(s.clock, batch)]
    ensures forall p | p !in Paths(batch) ::
              (p in s.pending <==> p in Step(setup, s, Collect(batch)).pending)
              && (p in s.pending ==> Step(setup, s, Collect(batch)).pending[p] == s.pending[p])
    ensures forall p | p in Paths(batch) :: p !in Step(setup, s, Collect(batch)).pending
  {
    ReachableInv(setup, s);
    FlushRefines(s.pending, s.past.log, s.clock, batch);
  }

  /** In any time window of length T each path is emitted at most T / 300 ms + 1 times. */
  lemma RateOfEmissions(setup: Setup, s: State, p: string, ks: seq<nat>, from: Time, T: nat)
    requires Reachable(setup, s) && EmittedAt(s.past.log, p, ks, from, from + T)
    ensures |ks| <= T / 300_000_000 + 1
  {
    ReachableInv(setup, s);
    RateBound(s.past.log, p, ks, from, T);
  }

  /** If a flush comes within 200 ms of the first entry and of each flush, a path that falls quiet
      is emitted between 300 and 500 ms after its last event. */
  lemma Latency(setup: Setup, s: State, i: nat) returns (j: nat)
    requires Reachable(setup, s) && Ticking(s.past.log, s.clock)
    requires i < |s.past.log| && s.past.log[i].Accepted? && s.past.log[i].at + DEBOUNCE + TICK <= s.clock
    requires forall j | i < j < |s.past.log| :: !(s.past.log[j].Accepted? && s.past.log[j].path == s.past.log[i].path)
    ensures i < j < |s.past.log| && Emits(s.past.log, j, s.past.log[i].path)
    ensures s.past.log[i].at + 300_000_000 <= s.past.log[j].at <= s.past.log[i].at + 500_000_000
  {
    ReachableInv(setup, s);
    j := LatencyBound(s.past.log, i, s.clock);
  }

  // A run in which the ticker keeps time: one write at the start, and flushes 200 and 400 ms later.
  ghost function BusyStart(setup: Setup): State {
    var status := Status.AfterSetMaxEvents(Status.Initial(1), setup.maxEvents);
    State(1, false, map[], [], false, [], None, [], Waiting, status, History([], [], {}, {}, [], []))
  }

  // One more action of a run.
  lemma OneMore(setup: Setup, s: State, a: Action) returns (s': State)
    requires Reachable(setup, s) && Enabled(setup, s, a)
    ensures Reachable(setup, s') && s' == Step(setup, s, a)
  {
    s' := Step(setup, s, a);
    ReachableStep(setup, s, a, s');
  }

  lemma AfterWrite(setup: Setup, name: string) returns (s: State)
    requires !WatchTree.Ignored(setup.env.filter, name)
    ensures Reachable(setup, s) && s.clock == 1 && s.started && s.ready == []
    ensures s.past.log == [Accepted(name, Write, 1)] && s.pending == map[name := Event(name, Write, 1 + DEBOUNCE)]
  {
    s := BusyStart(setup);
    InitialReachable(setup, s);
    s := OneMore(setup, s, Start);
    assert NormalizeOp(WRITE) == Write;
    s := OneMore(setup, s, Receive(name, WRITE));
  }

  /** The conditions of Latency can be met, whatever the configuration, by any path that is not
      ignored. */
  lemma LatencyApplies(setup: Setup, name: string) returns (s: State)
    requires !WatchTree.Ignored(setup.env.filter, name)
    ensures Reachable(setup, s) && Ticking(s.past.log, s.clock)
    ensures |s.past.log| == 3 && s.past.log[0].Accepted? && s.past.log[0].path == name
    ensures s.past.log[0].at + DEBOUNCE + TICK <= s.clock
    ensures forall j | 0 < j < |s.past.log| :: !s.past.log[j].Accepted?
  {
    s := AfterFlushes(setup, name);
    TwoFlushes(s.past.log, 1, s.past.log[2].batch);
    s := OneMore(setup, s, Advance(TICK / 2));
  }

  lemma AfterFlushes(setup: Setup, name: string) returns (s: State)
    requires !WatchTree.Ignored(setup.env.filter, name)
    ensures Reachable(setup, s) && s.clock == 1 + 2 * TICK
    ensures s.past.log == [Accepted(name, Write, 1), Flushed(1 + TICK, []),
                           Flushed(1 + 2 * TICK, [Event(name, Write, 1 + 2 * TICK)])]
  {
    var first := AfterWrite(setup, name);
    FlushOfOne(first.pending, name, Write, 1 + DEBOUNCE);
    s := AfterFlush(setup, first, []);
    var evt := Event(name, Write, s.clock + TICK);
    s := AfterFlush(setup, s, [evt]);
  }

  lemma AfterFlush(setup: Setup, s: State, batch: seq<Event>) returns (s': State)
    requires Reachable(setup, s) && s.started && s.ready == [] && IsReady(s.pending, s.clock + TICK, batch)
    ensures Reachable(setup, s') && s'.started && s'.ready == batch && s'.clock == s.clock + TICK
    ensures s'.pending == Undue(s.pending, s'.clock) && s'.past.log == s.past.log + [Flushed(s'.clock, batch)]
  {
    s' := OneMore(setup, s, Advance(TICK));
    s' := OneMore(setup, s', Collect(batch));
  }

  lemma FlushOfOne(pending: Pending, p: string, op: Op, deadline: Time)
    requires pending == map[p := Event(p, op, deadline)]
    ensures forall now: Time | now < deadline :: IsReady(pending, now, []) && Undue(pending, now) == pending
    ensures forall now: Time | deadline <= now :: IsReady(pending, now, [Event(p, op, now)])
  {
    forall now: Time | deadline <= now ensures IsReady(pending, now, [Event(p, op, now)]) {
      assert Event(p, op, now) in [Event(p, op, now)];
      assert Paths([Event(p, op, now)]) == {p};
    }
  }

  lemma TwoFlushes(log: seq<Entry>, start: Time, batch: seq<Event>)
    requires |log| == 3 && log[0].Accepted? && log[0].at == start
    requires log[1] == Flushed(start + TICK, []) && log[2] == Flushed(start + 2 * TICK, batch)
    ensures Ticking(log, start + DEBOUNCE + TICK)
  {
    assert FlushFollows(log, 0) by {
      assert log[1].Flushed?;
    }
    assert FlushFollows(log, 1) by {
      assert log[2].Flushed?;
    }
  }

  /** What the engine consumes is spaced like what the watcher emits, however many events are
      dropped in between: its times never decrease, and two events of one path are at least 300 ms
      apart. */
  lemma ConsumedInOrder(setup: Setup, s: State, i: nat, j: nat)
    requires Reachable(setup, s) && i < j < |s.past.consumed|
    ensures s.past.consumed[i].when <= s.past.consumed[j].when
    ensures s.past.consumed[i].path == s.past.consumed[j].path ==>
              s.past.consumed[i].when + 300_000_000 <= s.past.consumed[j].when
  {
    ReachableInv(setup, s);
    var offered, lost := s.past.offered, Lost(s);
    assert InFlight(s)[i] == s.past.consumed[i] && InFlight(s)[j] == s.past.consumed[j];
    OriginOrder(offered, lost, i, j);
    var n, n' := Origin(offered, lost, i), Origin(offered, lost, j);
    assert Emissions(s.past.log)[n] == offered[n] && Emissions(s.past.log)[n'] == offered[n'];
    EmissionsOrdered(s.past.log, n, n');
  }

  // ---- The status store ----

  /** The store is never paused or unspecified, and says syncing only while the engine is between
      the two updates of a step. Its ring is the last maxEvents recorded events, the stored snapshot
      carries the same events, and its last event is the latest recorded one. */
  lemma StatusAgreement(setup: Setup, s: State)
    requires Reachable(setup, s)
    ensures s.status.fields.state in {Status.Idle, Status.Syncing, Status.Error}
    ensures s.status.fields.state == Status.Syncing ==> s.phase == Working
    ensures ZERO < s.status.fields.updatedAt <= s.clock
    ensures var recorded, n := s.past.recorded, setup.maxEvents;
            s.status.ring == if |recorded| > n then recorded[|recorded| - n..] else recorded
    ensures s.status.recent == s.status.ring
    ensures s.status.fields.lastEvent ==
            if s.past.recorded == [] then "" else Last(s.past.recorded).op + " " + Last(s.past.recorded).path
  {
    ReachableInv(setup, s);
  }

  /** What the store says after each step: a mark replaces state and message, a recorded event only
      the last event; other steps leave it alone. The engine takes events and ticks only while it
      waits, and is between its two updates exactly while it works on one. */
  lemma StatusAfterStep(setup: Setup, s: State, a: Action)
    requires Enabled(setup, s, a)
    ensures var was, now, phase := s.status.fields, Step(setup, s, a).status.fields, Step(setup, s, a).phase;
            match a
            case BeginEvent =>
              s.phase == Received && now == Marked(was, Status.Syncing, "processing event", s.clock) && phase == Working
            case BeginTick =>
              s.phase == Waiting && now == Marked(was, Status.Syncing, "sync tick", s.clock) && phase == Working
            case Finish =>
              s.phase == Working && now == Marked(was, Status.Idle, "idle", s.clock) && phase == Waiting
            case Stop =>
              s.phase == Waiting && now == Marked(was, Status.Idle, "idle", s.clock) && phase == Stopped
            case Start => now == Marked(was, Status.Idle, "watching", s.clock) && phase == s.phase
            case WatchError => now == Marked(was, Status.Error, "fswatch error", s.clock) && phase == s.phase
            case Announce =>
              now.state == was.state && now.message == was.message && now.updatedAt == s.clock && phase == s.phase
            case Dequeue => s.phase == Waiting && now == was && phase == Received
            case _ => now == was && phase == s.phase
  {}

  function Marked(fields: Status.Fields, state: Status.State, message: string, now: Time): Status.Fields {
    Status.Fields(state, message, fields.lastEvent, now)
  }

  /** The record is the emitted events in order, with their labels and relative paths, except that
      the ready events after the announced one are still to come. */
  lemma RecordIsEmissions(setup: Setup, s: State)
    requires Reachable(setup, s)
    ensures var emitted := Emissions(s.past.log);
            var n := |s.past.recorded|;
            && n <= |emitted| && n + |s.ready| == |emitted| + (if s.announced then 1 else 0)
            && forall i | 0 <= i < n ::
                 && s.past.recorded[i].op == OpString(emitted[i].op)
                 && s.past.recorded[i].path == RelativeTo(setup.env, emitted[i].path)
                 && s.past.recorded[i].when == emitted[i].when
  {
    ReachableInv(setup, s);
    var emitted, n := Emissions(s.past.log), |s.past.recorded|;
    assert n == |s.past.offered| + if s.announced then 1 else 0;
    forall i | 0 <= i < n ensures s.past.recorded[i] == Record(setup.env, emitted[i]) {
      if i == |s.past.offered| {
        assert emitted[i] == s.ready[0];
      } else {
        assert emitted[i] == s.past.offered[i];
      }
    }
  }

  // The path below the sync root, if there is one and the path has such a form.
  function RelativeTo(env: Env, path: string): string {
    var relative := env.rel(env.syncRoot, path);
    if env.syncRoot != "" && relative.Some? then relative.value else path
  }

  /** An increasing choice of positions in the record that yields the records of the events. */
  ghost predicate Selects(setup: Setup, positions: seq<nat>, recorded: seq<Status.Event>, events: seq<Event>) {
    && |positions| == |events|
    && (forall i, j | 0 <= i < j < |positions| :: positions[i] < positions[j])
    && forall i | 0 <= i < |positions| ::
         positions[i] < |recorded| && recorded[positions[i]] == Record(setup.env, events[i])
  }

  /** So what the engine has consumed is a subsequence of what the store has recorded. */
  lemma ConsumedWasRecorded(setup: Setup, s: State) returns (positions: seq<nat>)
    requires Reachable(setup, s)
    ensures Selects(setup, positions, s.past.recorded, s.past.consumed)
  {
    ReachableInv(setup, s);
    positions := ConsumedPositions(setup, s);
  }

  lemma ConsumedPositions(setup: Setup, s: State) returns (positions: seq<nat>)
    requires FlowInv(setup, s) && StatusInv(setup, s)
    ensures Selects(setup, positions, s.past.recorded, s.past.consumed)
  {
    var offered, lost, c := s.past.offered, Lost(s), s.past.consumed;
    assert |c| <= |Kept(offered, lost)|;
    assert forall i | 0 <= i < |c| :: InFlight(s)[i] == c[i];
    positions := seq(|c|, i requires 0 <= i < |c| => Origin(offered, lost, i));
    forall i, j | 0 <= i < j < |c| ensures positions[i] < positions[j] {
      OriginOrder(offered, lost, i, j);
    }
    assert forall i | 0 <= i < |offered| :: s.past.recorded[i] == Record(setup.env, offered[i]);
  }
}
