// Debouncing: events on a path are merged until the path has been quiet for 300 ms; a periodic
// flush then emits one event for it. The specification is stated on a log of what the watcher
// accepted and emitted, independently of the pending map the code keeps.
module Debounce {
  import opened GoTime
  import opened Text
  import opened Events

  const DEBOUNCE: int := 300 * MILLISECOND
  const TICK: int := 200 * MILLISECOND

  // ---- The pending map ----

  type Pending = map<string, Event>

  function Accept(pending: Pending, path: string, op: Op, now: Time): Pending {
    var merged := if path in pending then MergeOp(pending[path].op, op) else op;
    pending[path := Event(path, merged, now + DEBOUNCE)]
  }

  function Due(pending: Pending, now: Time): set<string> {
    set p | p in pending && pending[p].when <= now
  }

  function Undue(pending: Pending, now: Time): Pending {
    map p | p in pending && p !in Due(pending, now) :: pending[p]
  }

  function Paths(batch: seq<Event>): set<string> { set e | e in batch :: e.path }

  ghost predicate DistinctPaths(batch: seq<Event>) {
    forall i, j | 0 <= i < j < |batch| :: batch[i].path != batch[j].path
  }

  // Map iteration has no fixed order: any enumeration of the due paths can be what a flush emits.
  ghost predicate IsReady(pending: Pending, now: Time, ready: seq<Event>) {
    && DistinctPaths(ready)
    && Paths(ready) == Due(pending, now)
    && forall e | e in ready :: e.path in pending && e == Event(e.path, pending[e.path].op, now)
  }

  // ---- The log ----

  datatype Entry =
    | Accepted(path: string, op: Op, at: Time)
    | Flushed(at: Time, batch: seq<Event>)

  datatype Touch = Touch(op: Op, at: Time)

  function Last<T>(xs: seq<T>): T
    requires xs != []
  {
    xs[|xs| - 1]
  }

  function Init<T>(xs: seq<T>): seq<T>
    requires xs != []
  {
    xs[..|xs| - 1]
  }

  /** The accepted events of p since the last flush that emitted p. */
  function Batch(log: seq<Entry>, p: string): seq<Touch> {
    if log == [] then []
    else
      match Last(log)
      case Accepted(q, op, at) => Batch(Init(log), p) + if q == p then [Touch(op, at)] else []
      case Flushed(_, batch) => if p in Paths(batch) then [] else Batch(Init(log), p)
  }

  /** op is the operation of highest priority in the batch. */
  ghost predicate IsTop(batch: seq<Touch>, op: Op) {
    && (exists k | 0 <= k < |batch| :: batch[k].op == op)
    && forall k | 0 <= k < |batch| :: Priority(batch[k].op) <= Priority(op)
  }

  ghost predicate Tracked(log: seq<Entry>, p: string, e: Event) {
    var b := Batch(log, p);
    b != [] && e.path == p && IsTop(b, e.op) && e.when == Last(b).at + DEBOUNCE
  }

  /** The pending map holds, for each path with unflushed events and no other, their merge and a
      deadline 300 ms after the latest of them. */
  ghost predicate Refines(pending: Pending, log: seq<Entry>) {
    forall p ::
      && (p in pending <==> Batch(log, p) != [])
      && (p in pending ==> Tracked(log, p, pending[p]))
  }

  ghost predicate IsDue(log: seq<Entry>, p: string, at: Time) {
    Batch(log, p) != [] && Last(Batch(log, p)).at <= at - DEBOUNCE
  }

  /** What a flush at time `at` must emit after log: once each, in any order, exactly the paths
      that have unflushed events and had none in the last 300 ms, with the top operation. */
  ghost predicate CorrectFlush(log: seq<Entry>, at: Time, batch: seq<Event>) {
    && DistinctPaths(batch)
    && (forall p :: p in Paths(batch) <==> IsDue(log, p, at))
    && (forall e | e in batch :: e.when == at && IsTop(Batch(log, e.path), e.op))
  }

  ghost predicate WellFormed(log: seq<Entry>) {
    log != [] ==>
      && WellFormed(Init(log))
      && (|log| > 1 ==> Last(Init(log)).at <= Last(log).at)
      && (Last(log).Flushed? ==> CorrectFlush(Init(log), Last(log).at, Last(log).batch))
  }

  lemma InitOf<T>(xs: seq<T>, x: T)
    ensures Init(xs + [x]) == xs && Last(xs + [x]) == x
  {}

  /** mergeOp computes tops, in whichever order the events arrive. */
  lemma MergeIsTop(batch: seq<Touch>, op: Op, t: Touch)
    requires batch != [] ==> IsTop(batch, op)
    ensures IsTop(batch + [t], if batch == [] then t.op else MergeOp(op, t.op))
  {
    var b := batch + [t];
    assert b[|batch|] == t;
    if batch != [] {
      var k :| 0 <= k < |batch| && batch[k].op == op;
      assert b[k].op == op;
    }
  }

  lemma TopUnique(batch: seq<Touch>, a: Op, b: Op)
    requires IsTop(batch, a) && IsTop(batch, b)
    ensures a == b
  {
    assert Priority(a) == Priority(b);
  }

  /** Accepting an event keeps the pending map right. */
  lemma AcceptRefines(pending: Pending, log: seq<Entry>, path: string, op: Op, now: Time)
    requires Refines(pending, log)
    ensures Refines(Accept(pending, path, op, now), log + [Accepted(path, op, now)])
  {
    var log' := log + [Accepted(path, op, now)];
    var pending' := Accept(pending, path, op, now);
    InitOf(log, Accepted(path, op, now));
    forall p ensures (p in pending' <==> Batch(log', p) != []) && (p in pending' ==> Tracked(log', p, pending'[p])) {
      assert p in pending <==> Batch(log, p) != [];
      if p == path {
        var b := Batch(log, p);
        assert p in pending ==> Tracked(log, p, pending[p]);
        MergeIsTop(b, if p in pending then pending[p].op else op, Touch(op, now));
        assert Batch(log', p) == b + [Touch(op, now)];
        assert IsTop(Batch(log', p), pending'[p].op);
      } else {
        assert Batch(log', p) == Batch(log, p) + [] == Batch(log, p);
        assert p in pending ==> Tracked(log, p, pending[p]);
      }
    }
  }

  /** A flush empties exactly the due paths out of the pending map and emits what it must. */
  lemma FlushRefines(pending: Pending, log: seq<Entry>, now: Time, ready: seq<Event>)
    requires Refines(pending, log) && IsReady(pending, now, ready)
    ensures Refines(Undue(pending, now), log + [Flushed(now, ready)])
    ensures CorrectFlush(log, now, ready)
  {
    var log' := log + [Flushed(now, ready)];
    InitOf(log, Flushed(now, ready));
    forall p
      ensures p in Undue(pending, now) <==> Batch(log', p) != []
      ensures p in Undue(pending, now) ==> Tracked(log', p, Undue(pending, now)[p])
      ensures p in Paths(ready) <==> IsDue(log, p, now)
    {
      assert p in pending <==> Batch(log, p) != [];
      assert p in pending ==> Tracked(log, p, pending[p]);
      assert Batch(log', p) == if p in Paths(ready) then [] else Batch(log, p);
    }
    forall e | e in ready ensures e.when == now && IsTop(Batch(log, e.path), e.op) {
      assert Tracked(log, e.path, pending[e.path]);
    }
  }

  // ---- Consequences for every well-formed log ----

  lemma {:induction false} WellFormedPrefix(log: seq<Entry>, k: nat)
    requires WellFormed(log) && k <= |log|
    ensures WellFormed(log[..k])
  {
    if k < |log| {
      WellFormedPrefix(Init(log), k);
      assert Init(log)[..k] == log[..k];
    } else {
      assert log[..k] == log;
    }
  }

  lemma {:induction false} Monotone(log: seq<Entry>, i: nat, j: nat)
    requires WellFormed(log) && i <= j < |log|
    ensures log[i].at <= log[j].at
  {
    if j < |log| - 1 {
      Monotone(Init(log), i, j);
    } else if i < j {
      Monotone(Init(log), i, j - 1);
    }
  }

  lemma {:induction false} FlushAt(log: seq<Entry>, k: nat)
    requires WellFormed(log) && k < |log| && log[k].Flushed?
    ensures CorrectFlush(log[..k], log[k].at, log[k].batch)
  {
    WellFormedPrefix(log, k + 1);
    assert Init(log[..k + 1]) == log[..k];
  }

  predicate Emits(log: seq<Entry>, k: nat, p: string)
    requires k < |log|
  {
    log[k].Flushed? && p in Paths(log[k].batch)
  }

  // The batch of p reaches back no further than p's last emission.
  lemma {:induction false} BatchAfterEmission(log: seq<Entry>, p: string, i: nat)
    requires WellFormed(log) && i < |log| && Emits(log, i, p)
    ensures forall t | t in Batch(log, p) :: log[i].at <= t.at
  {
    if i == |log| - 1 {
    } else {
      BatchAfterEmission(Init(log), p, i);
      Monotone(log, i, |log| - 1);
    }
  }

  /** Two emissions of one path are at least 300 ms apart. */
  lemma EmissionsSpaced(log: seq<Entry>, p: string, i: nat, j: nat)
    requires WellFormed(log) && i < j < |log| && Emits(log, i, p) && Emits(log, j, p)
    ensures log[i].at + DEBOUNCE <= log[j].at
  {
    FlushAt(log, j);
    WellFormedPrefix(log, j);
    assert log[..j][i] == log[i];
    BatchAfterEmission(log[..j], p, i);
    assert IsDue(log[..j], p, log[j].at);
    assert Last(Batch(log[..j], p)) in Batch(log[..j], p);
  }

  /** Positions at which p is emitted, one after the other, between the two times. */
  ghost predicate EmittedAt(log: seq<Entry>, p: string, ks: seq<nat>, from: Time, to: Time) {
    && (forall i | 0 <= i < |ks| :: ks[i] < |log| && Emits(log, ks[i], p) && from <= log[ks[i]].at <= to)
    && forall i, j | 0 <= i < j < |ks| :: ks[i] < ks[j]
  }

  // The last of n + 1 emissions is at least n * 300 ms after the first.
  lemma {:induction false} EmissionsSpan(log: seq<Entry>, p: string, ks: seq<nat>, from: Time, to: Time)
    requires WellFormed(log) && EmittedAt(log, p, ks, from, to) && ks != []
    ensures from + (|ks| - 1) * DEBOUNCE <= log[Last(ks)].at
  {
    if |ks| == 1 {
    } else {
      EmissionsSpan(log, p, Init(ks), from, to);
      EmissionsSpaced(log, p, ks[|ks| - 2], ks[|ks| - 1]);
    }
  }

  lemma Quotient(n: int, T: nat)
    requires n * DEBOUNCE <= T
    ensures n <= T / DEBOUNCE
  {}

  /** Rate: in any time window of length T a path is emitted at most T / 300 ms + 1 times. */
  lemma RateBound(log: seq<Entry>, p: string, ks: seq<nat>, from: Time, T: nat)
    requires WellFormed(log) && EmittedAt(log, p, ks, from, from + T)
    ensures |ks| <= T / DEBOUNCE + 1
  {
    if ks != [] {
      EmissionsSpan(log, p, ks, from, from + T);
      Quotient(|ks| - 1, T);
    }
  }

  // The event accepted at i stays the last of p's batch until p is emitted, if nothing more comes.
  lemma {:induction false} QuietBatch(log: seq<Entry>, i: nat)
    requires i < |log| && log[i].Accepted?
    requires forall j | i < j < |log| :: !(log[j].Accepted? && log[j].path == log[i].path)
    requires forall j | i < j < |log| :: !Emits(log, j, log[i].path)
    ensures var b := Batch(log, log[i].path); b != [] && Last(b).at == log[i].at
  {
    if i == |log| - 1 {
    } else {
      var init := Init(log);
      forall j | i < j < |init|
        ensures !(init[j].Accepted? && init[j].path == log[i].path) && !Emits(init, j, log[i].path)
      {
        assert init[j] == log[j] && !Emits(log, j, log[i].path);
      }
      QuietBatch(init, i);
      assert !Emits(log, |log| - 1, log[i].path);
    }
  }

  // A flush follows the entry k within one ticker period.
  ghost predicate FlushFollows(log: seq<Entry>, k: nat)
    requires k < |log|
  {
    exists m | k < m < |log| :: log[m].Flushed? && log[m].at <= log[k].at + TICK
  }

  /** The ticker keeps time until `to`: a flush comes within one period of the first entry, and then
      within one period of each flush, unless that period is not over yet. */
  ghost predicate Ticking(log: seq<Entry>, to: Time) {
    forall k: nat | k < |log| && (k == 0 || log[k].Flushed?) && log[k].at + TICK < to :: FlushFollows(log, k)
  }

  ghost predicate FlushIn(log: seq<Entry>, t: Time) {
    exists k | 0 <= k < |log| :: log[k].Flushed? && t <= log[k].at <= t + TICK
  }

  // The first flush at t or later, reached from the entry k by following the ticker.
  lemma {:induction false} NextFlush(log: seq<Entry>, k: nat, t: Time, to: Time)
    requires WellFormed(log) && Ticking(log, to) && t + TICK <= to
    requires k < |log| && (k == 0 || log[k].Flushed?) && log[k].at < t
    ensures FlushIn(log, t)
    decreases |log| - k
  {
    assert FlushFollows(log, k);
    var m :| k < m < |log| && log[m].Flushed? && log[m].at <= log[k].at + TICK;
    if log[m].at < t {
      NextFlush(log, m, t, to);
    }
  }

  /** So from the first entry on, every window of one period that is over contains a flush. */
  lemma TickingWindow(log: seq<Entry>, t: Time, to: Time)
    requires WellFormed(log) && Ticking(log, to) && log != [] && log[0].at < t && t + TICK <= to
    ensures FlushIn(log, t)
  {
    NextFlush(log, 0, t, to);
  }

  /** Latency: if the ticker keeps time, a path that falls quiet is emitted between 300 and 500 ms
      after its last event. */
  lemma LatencyBound(log: seq<Entry>, i: nat, to: Time) returns (j: nat)
    requires WellFormed(log) && Ticking(log, to)
    requires i < |log| && log[i].Accepted? && log[i].at + DEBOUNCE + TICK <= to
    requires forall j | i < j < |log| :: !(log[j].Accepted? && log[j].path == log[i].path)
    ensures i < j < |log| && Emits(log, j, log[i].path)
    ensures log[i].at + DEBOUNCE <= log[j].at <= log[i].at + DEBOUNCE + TICK
  {
    var p, t := log[i].path, log[i].at + DEBOUNCE;
    Monotone(log, 0, i);
    TickingWindow(log, t, to);
    var k :| 0 <= k < |log| && log[k].Flushed? && t <= log[k].at <= t + TICK;
    if k < i {
      Monotone(log, k, i);
    }
    j := FirstEmission(log, i, k, p);
    Monotone(log, j, k);
    FlushAt(log, j);
    QuietPrefix(log, i, j);
  }

  lemma QuietPrefix(log: seq<Entry>, i: nat, j: nat)
    requires i < j <= |log| && log[i].Accepted?
    requires forall m | i < m < j :: !(log[m].Accepted? && log[m].path == log[i].path) && !Emits(log, m, log[i].path)
    ensures var b := Batch(log[..j], log[i].path); b != [] && Last(b).at == log[i].at
  {
    var pre := log[..j];
    assert forall m | 0 <= m < j :: pre[m] == log[m];
    QuietBatch(pre, i);
  }

  // p is emitted at k at the latest, since by then it is due.
  lemma FirstEmission(log: seq<Entry>, i: nat, k: nat, p: string) returns (j: nat)
    requires WellFormed(log) && i < k < |log| && log[i].Accepted? && log[i].path == p
    requires log[k].Flushed? && log[i].at + DEBOUNCE <= log[k].at
    requires forall j | i < j < |log| :: !(log[j].Accepted? && log[j].path == p)
    ensures i < j <= k && Emits(log, j, p) && forall m | i < m < j :: !Emits(log, m, p)
  {
    j := i + 1;
    while j < k && !Emits(log, j, p)
      invariant i < j <= k
      invariant forall m | i < m < j :: !Emits(log, m, p)
    {
      j := j + 1;
    }
    if j == k {
      QuietPrefix(log, i, k);
      FlushAt(log, k);
      assert IsDue(log[..k], p, log[k].at);
    }
  }

  /** All emitted events, in order. */
  function Emissions(log: seq<Entry>): seq<Event> {
    if log == [] then []
    else Emissions(Init(log)) + if Last(log).Flushed? then Last(log).batch else []
  }

  lemma {:induction false} EmissionEntry(log: seq<Entry>, n: nat) returns (k: nat, m: nat)
    requires n < |Emissions(log)|
    ensures k < |log| && log[k].Flushed? && m < |log[k].batch| && log[k].batch[m] == Emissions(log)[n]
    ensures n == |Emissions(log[..k])| + m
  {
    var before := Emissions(Init(log));
    if n < |before| {
      k, m := EmissionEntry(Init(log), n);
      assert Init(log)[..k] == log[..k];
    } else {
      k, m := |log| - 1, n - |before|;
    }
  }

  lemma {:induction false} EmissionsGrow(log: seq<Entry>, k: nat)
    requires k < |log| && log[k].Flushed?
    ensures |Emissions(log[..k])| + |log[k].batch| <= |Emissions(log)|
  {
    if k == |log| - 1 {
    } else {
      EmissionsGrow(Init(log), k);
      assert Init(log)[..k] == log[..k];
    }
  }

  lemma EmissionOrder(log: seq<Entry>, j: nat, k: nat)
    requires j < k < |log| && log[j].Flushed?
    ensures |Emissions(log[..j])| + |log[j].batch| <= |Emissions(log[..k])|
  {
    assert log[..k][..j] == log[..j];
    EmissionsGrow(log[..k], j);
  }

  /** Emitted events carry non-decreasing times; for one path they are at least 300 ms apart. */
  lemma EmissionsOrdered(log: seq<Entry>, i: nat, j: nat)
    requires WellFormed(log) && i < j < |Emissions(log)|
    ensures Emissions(log)[i].when <= Emissions(log)[j].when
    ensures Emissions(log)[i].path == Emissions(log)[j].path ==>
              Emissions(log)[i].when + DEBOUNCE <= Emissions(log)[j].when
  {
    var k, m := EmissionEntry(log, i);
    var k', m' := EmissionEntry(log, j);
    FlushAt(log, k);
    FlushAt(log, k');
    if k' < k {
      EmissionOrder(log, k', k);
    } else if k < k' {
      Monotone(log, k, k');
      if Emissions(log)[i].path == Emissions(log)[j].path {
        EmissionsSpaced(log, Emissions(log)[i].path, k, k');
      }
    }
  }

  lemma EmissionsAppend(log: seq<Entry>, e: Entry)
    ensures Emissions(log + [e]) == Emissions(log) + if e.Flushed? then e.batch else []
  {
    InitOf(log, e);
  }
}
