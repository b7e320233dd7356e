// The status store: a snapshot and a bounded ring of recent events, written by several goroutines
// under one lock, so that its operations are atomic.
module Status {
  import opened GoTime

  datatype State = Unspecified | Idle | Syncing | Error | Paused

  datatype Event = Event(op: string, path: string, when: Time)

  // A Snapshot apart from its slice of recent events.
  datatype Fields = Fields(state: State, message: string, lastEvent: string, updatedAt: Time)

  datatype Snapshot = Snapshot(fields: Fields, recentEvents: array<Event>)

  type Limited = n: int | n > 0 witness 1

  // The contents of a store: the ring, its limit, and the stored snapshot.
  datatype View = View(ring: seq<Event>, maxEvents: Limited, fields: Fields, recent: seq<Event>)

  const DEFAULT_MAX: Limited := 20

  /** The last n elements of xs, or all of them. */
  function Trim<T>(xs: seq<T>, n: int): seq<T>
    requires n >= 0
  {
    if |xs| > n then xs[|xs| - n..] else xs
  }

  function Label(evt: Event): string { evt.op + " " + evt.path }

  function Stamp(evt: Event, now: Time): Event {
    if IsZero(evt.when) then evt.(when := now) else evt
  }

  function Initial(now: Time): View {
    View([], DEFAULT_MAX, Fields(Idle, "idle", "", now), [])
  }

  function AfterSetMaxEvents(v: View, max: int): View {
    if max <= 0 then v
    else
      var ring := Trim(v.ring, max);
      v.(maxEvents := max, ring := ring, recent := ring)
  }

  function AfterUpdate(v: View, upd: Fields, now: Time): View {
    var stamped := if IsZero(upd.updatedAt) then upd.(updatedAt := now) else upd;
    var kept := if stamped.lastEvent == "" then stamped.(lastEvent := v.fields.lastEvent) else stamped;
    v.(fields := kept, recent := v.ring)
  }

  function AfterAddEvent(v: View, evt: Event, now: Time): View {
    var e := Stamp(evt, now);
    var ring := Trim(v.ring + [e], v.maxEvents);
    v.(ring := ring, recent := ring, fields := v.fields.(lastEvent := Label(e), updatedAt := now))
  }

  // ---- Histories of calls ----

  datatype Call =
    | SetMaxEvents(max: int)
    | Update(upd: Fields, at: Time)
    | AddEvent(evt: Event, at: Time)

  function After(v: View, c: Call): View {
    match c
    case SetMaxEvents(max) => AfterSetMaxEvents(v, max)
    case Update(upd, now) => AfterUpdate(v, upd, now)
    case AddEvent(evt, now) => AfterAddEvent(v, evt, now)
  }

  /** The store after the calls h. */
  function Replay(h: seq<Call>, start: Time): View {
    if h == [] then Initial(start) else After(Replay(h[..|h| - 1], start), h[|h| - 1])
  }

  /** Every event that was ever added, in order. */
  function Added(h: seq<Call>): seq<Event>
  {
    if h == [] then []
    else
      var init := Added(h[..|h| - 1]);
      match h[|h| - 1]
      case AddEvent(evt, now) => init + [if evt.when == 0 then Event(evt.op, evt.path, now) else evt]
      case _ => init
  }

  /** The limit in force after h: that of the last call with a positive one. */
  function Limit(h: seq<Call>): int
  {
    if h == [] then 20
    else
      match h[|h| - 1]
      case SetMaxEvents(max) => if max > 0 then max else Limit(h[..|h| - 1])
      case _ => Limit(h[..|h| - 1])
  }

  // What the moment after the first s calls of h allows the ring to hold after all of h.
  ghost function Allowance(h: seq<Call>, s: nat): int
    requires s <= |h|
  {
    Limit(h[..s]) + |Added(h)| - |Added(h[..s])|
  }

  lemma AllowanceStep(h: seq<Call>, s: nat)
    requires h != [] && s < |h|
    ensures var init := h[..|h| - 1];
            Allowance(h, s) == Allowance(init, s) + |Added(h)| - |Added(init)|
  {
    assert h[..|h| - 1][..s] == h[..s];
  }

  lemma {:induction false} AllowanceNow(h: seq<Call>)
    ensures Allowance(h, |h|) == Limit(h)
  {
    assert h[..|h|] == h;
  }

  lemma {:induction false} ReplayLimit(h: seq<Call>, start: Time)
    ensures Replay(h, start).maxEvents == Limit(h) && Replay(h, start).recent == Replay(h, start).ring
  {
    if h == [] {
    } else {
      ReplayLimit(h[..|h| - 1], start);
    }
  }

  lemma TrimSuffix<T>(all: seq<T>, k: nat, n: nat)
    requires k <= |all|
    ensures Trim(Trim(all, k), n) == Trim(all, if n < k then n else k)
  {}

  lemma TrimAppend<T>(all: seq<T>, k: nat, x: T)
    requires k <= |all|
    ensures Trim(all, k) + [x] == Trim(all + [x], k + 1)
  {}

  lemma TrimTwice<T>(all: seq<T>, n: nat, x: T)
    requires n > 0
    ensures Trim(Trim(all, n) + [x], n) == Trim(all + [x], n)
  {}

  lemma TrimAfter<T>(xs: seq<T>, ys: seq<T>, n: nat)
    ensures Trim(Trim(xs, n) + ys, n) == Trim(xs + ys, n)
  {}

  lemma TrimLength<T>(xs: seq<T>, n: nat)
    requires n <= |xs|
    ensures |Trim(xs, n)| == n
  {}

  lemma SuffixGrows<T>(all: seq<T>, k: nat, x: T, n: nat)
    requires k <= |all|
    ensures var ring := Trim(Trim(all, k) + [x], n);
            |ring| <= |all| + 1 && ring == Trim(all + [x], |ring|)
  {
    TrimAppend(all, k, x);
    TrimSuffix(all + [x], k + 1, n);
    TrimLength(all + [x], if n < k + 1 then n else k + 1);
  }

  /** The ring is a suffix of all events ever added. */
  lemma {:induction false} RingIsSuffix(h: seq<Call>, start: Time)
    ensures var ring := Replay(h, start).ring;
            |ring| <= |Added(h)| && ring == Trim(Added(h), |ring|)
  {
    if h == [] {
    } else {
      var init, c := h[..|h| - 1], h[|h| - 1];
      RingIsSuffix(init, start);
      var v := Replay(init, start);
      match c
      case SetMaxEvents(max) =>
        if max > 0 {
          TrimSuffix(Added(init), |v.ring|, max);
        }
      case Update(_, _) =>
      case AddEvent(evt, now) =>
        SuffixGrows(Added(init), |v.ring|, Stamp(evt, now), v.maxEvents);
    }
  }

  ghost predicate Attained(h: seq<Call>, n: int) {
    n == |Added(h)| || exists s | 0 <= s <= |h| :: n == Allowance(h, s)
  }

  // One call: the ring grows with the added events, up to the limit.
  lemma RingStep(h: seq<Call>, start: Time)
    requires h != []
    ensures var init := h[..|h| - 1];
            var grown := |Replay(init, start).ring| + |Added(h)| - |Added(init)|;
            |Replay(h, start).ring| == if grown <= Limit(h) then grown else Limit(h)
  {
    ReplayLimit(h, start);
    ReplayLimit(h[..|h| - 1], start);
    RingWithinLimit(h[..|h| - 1], start);
  }

  lemma RingWithinLimit(h: seq<Call>, start: Time)
    ensures |Replay(h, start).ring| <= Limit(h)
  {
    ReplayLimit(h, start);
    if h != [] {
      RingWithinLimit(h[..|h| - 1], start);
      ReplayLimit(h[..|h| - 1], start);
    }
  }

  lemma {:induction false} RingBounded(h: seq<Call>, start: Time, s: nat)
    requires s <= |h|
    ensures |Replay(h, start).ring| <= Allowance(h, s)
  {
    AllowanceNow(h);
    if s == |h| {
      RingWithinLimit(h, start);
    } else {
      RingBounded(h[..|h| - 1], start, s);
      RingStep(h, start);
      AllowanceStep(h, s);
    }
  }

  lemma {:induction false} RingAttains(h: seq<Call>, start: Time)
    ensures Attained(h, |Replay(h, start).ring|)
  {
    if h == [] {
    } else {
      var init := h[..|h| - 1];
      RingAttains(init, start);
      RingStep(h, start);
      AllowanceNow(h);
      var n := |Replay(init, start).ring|;
      if n + |Added(h)| - |Added(init)| > Limit(h) {
        assert |Replay(h, start).ring| == Allowance(h, |h|);
      } else if n != |Added(init)| {
        var s :| 0 <= s <= |init| && n == Allowance(init, s);
        AllowanceStep(h, s);
        assert |Replay(h, start).ring| == Allowance(h, s);
      }
    }
  }

  /** After any calls the ring holds the last events added, and how many is exactly the least of
      the number ever added and, over every past moment, the limit then in force plus the number
      added since. Non-positive limits change nothing. */
  lemma {:induction false} RingExact(h: seq<Call>, start: Time)
    ensures var ring := Replay(h, start).ring;
            && |ring| <= |Added(h)| && ring == Added(h)[|Added(h)| - |ring|..]
            && (forall s | 0 <= s <= |h| :: |ring| <= Allowance(h, s))
            && Attained(h, |ring|)
    ensures Replay(h, start).maxEvents == Limit(h) && Replay(h, start).recent == Replay(h, start).ring
  {
    RingIsSuffix(h, start);
    RingAttains(h, start);
    ReplayLimit(h, start);
    forall s | 0 <= s <= |h| ensures |Replay(h, start).ring| <= Allowance(h, s) {
      RingBounded(h, start, s);
    }
  }

  // ---- The other fields ----

  // What the last calls that concern a field say of it, or how it starts.
  function LastState(h: seq<Call>): State {
    if h == [] then Idle else if Newest(h).Update? then Newest(h).upd.state else LastState(Earlier(h))
  }

  function LastMessage(h: seq<Call>): string {
    if h == [] then "idle" else if Newest(h).Update? then Newest(h).upd.message else LastMessage(Earlier(h))
  }

  function LastEvent(h: seq<Call>): string {
    if h == [] then ""
    else
      match Newest(h)
      case AddEvent(evt, _) => evt.op + " " + evt.path
      case Update(upd, _) => if upd.lastEvent != "" then upd.lastEvent else LastEvent(Earlier(h))
      case SetMaxEvents(_) => LastEvent(Earlier(h))
  }

  function LastChange(h: seq<Call>, start: Time): Time {
    if h == [] then start
    else
      match Newest(h)
      case AddEvent(_, now) => now
      case Update(upd, now) => if upd.updatedAt != 0 then upd.updatedAt else now
      case SetMaxEvents(_) => LastChange(Earlier(h), start)
  }

  function Newest(h: seq<Call>): Call
    requires h != []
  {
    h[|h| - 1]
  }

  function Earlier(h: seq<Call>): seq<Call>
    requires h != []
  {
    h[..|h| - 1]
  }

  /** After any calls the store holds the state and message of the last update, the last event of the
      last call that names one, and the time of the last update or event. */
  lemma {:induction false} FieldsExact(h: seq<Call>, start: Time)
    ensures Replay(h, start).fields == Fields(LastState(h), LastMessage(h), LastEvent(h), LastChange(h, start))
  {
    if h == [] {
    } else {
      FieldsExact(Earlier(h), start);
    }
  }

  /** While no update names a last event, the snapshot's describes the last event added. */
  lemma {:induction false} LastEventIsLatest(h: seq<Call>, start: Time)
    requires forall c | c in h && c.Update? :: c.upd.lastEvent == ""
    ensures Replay(h, start).fields.lastEvent ==
            if Added(h) == [] then "" else var e := Added(h)[|Added(h)| - 1]; e.op + " " + e.path
  {
    if h == [] {
    } else {
      LastEventIsLatest(h[..|h| - 1], start);
      assert h[|h| - 1] in h;
    }
  }

  // ---- The store in memory ----

  class Store {
    // The stored snapshot; its RecentEvents is the array recent.
    var fields: Fields
    var recent: array<Event>
    var maxEvents: Limited
    // The slice eventRing: buf[off..off + len], with capacity to the end of buf.
    var buf: array<Event>
    var off: nat
    var len: nat

    ghost predicate Valid()
      reads this
    {
      off + len <= buf.Length && recent != buf
    }

    ghost function Ring(): seq<Event>
      requires off + len <= buf.Length
      reads this`buf, this`off, this`len, buf
    {
      buf[off..off + len]
    }

    ghost function Contents(): View
      requires Valid()
      reads this, buf, recent
    {
      View(Ring(), maxEvents, fields, recent[..])
    }

    // NewStore.
    constructor (now: Time)
      ensures Valid() && Contents() == Initial(now) && fresh(buf) && fresh(recent)
    {
      maxEvents := DEFAULT_MAX;
      fields := Fields(Idle, "idle", "", now);
      recent := new Event[0];
      buf := new Event[0];
      off := 0;
      len := 0;
    }

    // A copy of the ring in an array of its own.
    method CopyRing() returns (a: array<Event>)
      requires Valid()
      ensures fresh(a) && a[..] == Ring()
    {
      var items := buf[off..off + len];
      a := new Event[|items|](i requires 0 <= i < |items| => items[i]);
      assert a[..] == items;
    }

    // One more event at the end of the ring: in place when the backing array has room behind the
    // slice, else in a new and larger array.
    method Append(evt: Event)
      requires Valid()
      modifies this`buf, this`off, this`len, buf
      ensures Valid() && (buf == old(buf) || fresh(buf))
      ensures Ring() == old(Ring()) + [evt]
    {
      ghost var before := buf[off..off + len];
      if off + len < buf.Length {
        buf[off + len] := evt;
        assert buf[off..off + len] == before;
      } else {
        var capacity: nat :| capacity > len;
        var items := buf[off..off + len];
        buf := new Event[capacity](i => if 0 <= i < |items| then items[i] else evt);
        off := 0;
        assert buf[0..len] == items;
      }
      len := len + 1;
      assert buf[off..off + len] == buf[off..off + len - 1] + [evt];
    }

    // Keeps the last max events of the ring, as a slice of the same array.
    method Reslice(max: nat)
      requires Valid()
      modifies this`off, this`len
      ensures Valid() && Ring() == old(Trim(Ring(), max))
    {
      if len > max {
        ghost var before := Ring();
        off, len := off + len - max, max;
        assert Ring() == before[|before| - max..];
      }
    }

    method Push(evt: Event)
      requires Valid()
      modifies this`buf, this`off, this`len, buf
      ensures Valid() && (buf == old(buf) || fresh(buf))
      ensures Ring() == Trim(old(Ring()) + [evt], maxEvents)
    {
      Append(evt);
      Reslice(maxEvents);
    }

    method SetMaxEvents(max: int)
      requires Valid()
      modifies this
      ensures Valid() && buf == old(buf)
      ensures Contents() == old(AfterSetMaxEvents(Contents(), max))
    {
      if max <= 0 {
        return;
      }
      maxEvents := max;
      Reslice(max);
      recent := CopyRing();
    }

    method Update(snapshot: Fields, now: Time)
      requires Valid()
      modifies this
      ensures Valid() && buf == old(buf)
      ensures Contents() == old(AfterUpdate(Contents(), snapshot, now))
    {
      var next := snapshot;
      if IsZero(next.updatedAt) {
        next := next.(updatedAt := now);
      }
      if next.lastEvent == "" {
        next := next.(lastEvent := fields.lastEvent);
      }
      recent := CopyRing();
      fields := next;
    }

    method AddEvent(event: Event, now: Time)
      requires Valid()
      modifies this, buf
      ensures Valid() && (buf == old(buf) || fresh(buf))
      ensures Contents() == old(AfterAddEvent(Contents(), event, now))
    {
      var evt := Stamp(event, now);
      Push(evt);
      fields := fields.(lastEvent := Label(evt), updatedAt := now);
      recent := CopyRing();
    }

    method Current() returns (snapshot: Snapshot)
      requires Valid()
      ensures snapshot.fields == fields && fresh(snapshot.recentEvents)
      ensures snapshot.recentEvents[..] == Contents().ring
    {
      var events := CopyRing();
      snapshot := Snapshot(fields, events);
    }
  }

  /** A snapshot already returned never changes, whatever is called on the store later: AddEvent
      appends to the ring in place, but never into an array it has handed out. At the end the
      store is where the specification of the calls says. */
  method HoldSnapshot(store: Store, calls: seq<Call>) returns (snapshot: Snapshot)
    requires store.Valid()
    modifies store, store.buf
    ensures store.Valid() && store.Contents() == old(ReplayFrom(store.Contents(), calls))
    ensures fresh(snapshot.recentEvents) && snapshot.fields == old(store.fields)
    ensures snapshot.recentEvents[..] == old(store.Contents().ring)
  {
    snapshot := store.Current();
    var first := store.buf;
    for i := 0 to |calls|
      invariant store.Valid() && (store.buf == first || fresh(store.buf)) && store.buf != snapshot.recentEvents
      invariant ReplayFrom(store.Contents(), calls[i..]) == old(ReplayFrom(store.Contents(), calls))
      invariant snapshot.recentEvents[..] == old(store.Contents().ring)
    {
      assert calls[i..][1..] == calls[i + 1..];
      match calls[i]
      case SetMaxEvents(max) => store.SetMaxEvents(max);
      case Update(upd, now) => store.Update(upd, now);
      case AddEvent(evt, now) => store.AddEvent(evt, now);
    }
  }

  function ReplayFrom(v: View, calls: seq<Call>): View
    decreases |calls|
  {
    if calls == [] then v else ReplayFrom(After(v, calls[0]), calls[1..])
  }
}
