// The filesystem watcher: one goroutine that accepts raw events into the pending map and
// periodically flushes the due ones into the status store and the out channel.
module Watching {
  import opened Wrappers
  import opened GoTime
  import opened Events
  import opened Debounce
  import opened WatchTree
  import Status
  import SyncQueue

  const OUT_CAPACITY: int := 256

  /** The watcher's configuration; rel(root, path) is filepath.Rel, None for an error. */
  datatype Env = Env(syncRoot: string, filter: Filter, rel: (string, string) -> Option<string>)

  function PathRel(env: Env, path: string): string {
    if env.syncRoot == "" then path
    else
      match env.rel(env.syncRoot, path)
      case Some(relative) => relative
      case None => path
  }

  /** How the status store records an emitted event. */
  function Record(env: Env, evt: Event): Status.Event {
    Status.Event(OpString(evt.op), PathRel(env, evt.path), evt.when)
  }

  function Records(env: Env, batch: seq<Event>): seq<Status.Event> {
    seq(|batch|, i requires 0 <= i < |batch| => Record(env, batch[i]))
  }

  /** What handleEvent does to the pending map. */
  ghost function Handled(env: Env, pending: Pending, name: string, bits: bv32, now: Time): Pending {
    if Ignored(env.filter, name) || NormalizeOp(bits) == Unknown then pending
    else Accept(pending, name, NormalizeOp(bits), now)
  }

  // The directories that adding the tree at path registers, and whether the walk fails: some
  // directory it reaches cannot be watched or listed.
  ghost function Directories(f: Filter, path: string, node: Node): set<string> {
    set v | v in Visits(f, path, node) :: v.path
  }

  ghost predicate Broken(f: Filter, visits: set<Visit>, addable: string -> bool) {
    exists v | v in visits :: !addable(v.path) || !v.readable
  }

  /** A walk fails exactly if some directory with no ignored path from the walk root down to it cannot
      be watched or listed. */
  lemma BrokenExact(f: Filter, path: string, node: Node, addable: string -> bool)
    ensures Broken(f, Visits(f, path, node), addable) <==>
            exists route, v :: VisitsAt(f, path, node, v, route) && !(addable(v.path) && v.readable)
  {
    forall v ensures v in Visits(f, path, node) <==> exists route :: VisitsAt(f, path, node, v, route) {
      VisitsExact(f, path, node, v);
    }
  }

  class Watcher {
    const env: Env
    var pending: Pending
    var out: seq<Event>
    var watched: set<string>
    // What is left of flushPending's second loop, and whether its first event has already been
    // added to the status store.
    var ready: seq<Event>
    var announced: bool

    ghost predicate Valid()
      reads this
    {
      && |out| <= OUT_CAPACITY
      && (announced ==> ready != [])
    }

    // NewWatcher.
    constructor (env: Env)
      ensures Valid() && this.env == env
      ensures pending == map[] && out == [] && watched == {} && ready == [] && !announced
    {
      this.env := env;
      pending := map[];
      out := [];
      watched := {};
      ready := [];
      announced := false;
    }

    /** addRecursive on the tree found at path. Without an error it adds exactly the directories
        the walk reaches; with one it may stop early. */
    method AddRecursive(path: string, node: Node, addable: string -> bool) returns (failed: bool)
      modifies this`watched
      ensures failed <==> Broken(env.filter, Visits(env.filter, path, node), addable)
      ensures old(watched) <= watched <= old(watched) + Directories(env.filter, path, node)
      ensures !failed ==> watched == old(watched) + Directories(env.filter, path, node)
      decreases node, |if node.Dir? then node.children else []| + 1
    {
      var ignored := ShouldIgnore(env.filter, path);
      if ignored || node.File? {
        return false;
      }
      ghost var here := Visit(path, node.readable);
      assert here in Visits(env.filter, path, node);
      if !addable(path) {
        return true;
      }
      watched := watched + {path};
      if !node.readable {
        return true;
      }
      failed := AddChildren(path, node, 0, addable);
      ghost var below := VisitsFrom(env.filter, path, node, 0);
      assert Visits(env.filter, path, node) == {here} + below;
    }

    // The walk's loop over the entries of a directory, from the k-th on.
    method AddChildren(path: string, node: Node, k: nat, addable: string -> bool) returns (failed: bool)
      requires node.Dir? && k <= |node.children|
      modifies this`watched
      ensures failed <==> Broken(env.filter, VisitsFrom(env.filter, path, node, k), addable)
      ensures old(watched) <= watched <= old(watched) + set v | v in VisitsFrom(env.filter, path, node, k) :: v.path
      ensures !failed ==> watched == old(watched) + set v | v in VisitsFrom(env.filter, path, node, k) :: v.path
      decreases node, |node.children| - k
    {
      if k == |node.children| {
        return false;
      }
      var child := node.children[k];
      ghost var here := Visits(env.filter, ChildPath(path, child.name), child);
      ghost var later := VisitsFrom(env.filter, path, node, k + 1);
      assert VisitsFrom(env.filter, path, node, k) == here + later;
      failed := AddRecursive(ChildPath(path, child.name), child, addable);
      if failed {
        return;
      }
      failed := AddChildren(path, node, k + 1, addable);
    }

    /** handleEvent; stat is the tree found at the path if it is a directory. */
    method HandleEvent(name: string, bits: bv32, stat: Option<Node>, addable: string -> bool, now: Time)
      requires Valid()
      modifies this`pending, this`watched
      ensures Valid() && pending == Handled(env, old(pending), name, bits, now)
      ensures old(watched) <= watched
      ensures watched != old(watched) ==>
                !Ignored(env.filter, name) && NormalizeOp(bits) == Create && stat.Some?
                && watched <= old(watched) + Directories(env.filter, name, stat.value)
      ensures !Ignored(env.filter, name) && NormalizeOp(bits) == Create && stat.Some?
              && !Broken(env.filter, Visits(env.filter, name, stat.value), addable) ==>
                watched == old(watched) + Directories(env.filter, name, stat.value)
    {
      var ignored := ShouldIgnore(env.filter, name);
      if ignored {
        return;
      }
      if bits & CREATE == CREATE {
        if stat.Some? {
          var _ := AddRecursive(name, stat.value, addable);
        }
      }
      var op := NormalizeOp(bits);
      if op == Unknown {
        return;
      }
      if name in pending {
        op := MergeOp(pending[name].op, op);
      }
      pending := pending[name := Event(name, op, now + DEBOUNCE)];
    }

    /** The first loop of flushPending, over the pending map in any order. */
    method CollectReady(now: Time)
      requires Valid() && ready == []
      modifies this`pending, this`ready
      ensures Valid() && IsReady(old(pending), now, ready) && pending == Undue(old(pending), now)
    {
      var before := pending;
      var rest := before.Keys;
      while rest != {}
        invariant rest <= before.Keys && !announced && |out| <= OUT_CAPACITY
        invariant pending == map p | p in before && (p in rest || before[p].when > now) :: before[p]
        invariant DistinctPaths(ready)
        invariant Paths(ready) == set p | p in before && p !in rest && before[p].when <= now
        invariant forall e | e in ready :: e.path in before && e == Event(e.path, before[e.path].op, now)
        decreases rest
      {
        var path :| path in rest;
        rest := rest - {path};
        if before[path].when < now || before[path].when == now {
          ready := Collected(ready, Event(path, before[path].op, now));
          pending := pending - {path};
        }
      }
      assert Paths(ready) == Due(before, now);
    }

    /** The two halves of an iteration of flushPending's second loop, over the ready events; other
        goroutines can run between them. */
    method Announce(store: Status.Store, now: Time)
      requires Valid() && store.Valid() && ready != [] && !announced
      modifies this`announced, store, store.buf
      ensures Valid() && announced && store.Valid() && (store.buf == old(store.buf) || fresh(store.buf))
      ensures store.Contents() == old(Status.AfterAddEvent(store.Contents(), Record(env, ready[0]), now))
    {
      store.AddEvent(Record(env, ready[0]), now);
      announced := true;
    }

    method Offer()
      requires Valid() && announced
      modifies this`out, this`ready, this`announced
      ensures Valid() && !announced && ready == old(ready[1..])
      ensures out == old(SyncQueue.TrySend(out, OUT_CAPACITY, ready[0]))
    {
      if |out| < OUT_CAPACITY {
        out := out + [ready[0]];
      }
      ready := ready[1..];
      announced := false;
    }

    // The second loop of flushPending.
    method EmitReady(store: Status.Store, now: Time)
      requires Valid() && store.Valid() && !announced
      modifies this`ready, this`out, this`announced, store, store.buf
      ensures Valid() && ready == [] && store.Valid() && (store.buf == old(store.buf) || fresh(store.buf))
      ensures out == old(OfferAll(out, ready))
      ensures store.Contents() == old(RecordAll(env, store.Contents(), ready, now))
    {
      while ready != []
        invariant Valid() && !announced && store.Valid() && (store.buf == old(store.buf) || fresh(store.buf))
        invariant OfferAll(out, ready) == old(OfferAll(out, ready))
        invariant RecordAll(env, store.Contents(), ready, now) == old(RecordAll(env, store.Contents(), ready, now))
        decreases |ready|
      {
        Announce(store, now);
        Offer();
      }
    }

    /** flushPending when nothing runs in between: all ready events are recorded in order, and as
        many of them are buffered as there is room for, the rest dropped. */
    method FlushPending(store: Status.Store, now: Time) returns (ghost batch: seq<Event>)
      requires Valid() && store.Valid() && ready == []
      modifies this`pending, this`ready, this`out, this`announced, store, store.buf
      ensures Valid() && ready == [] && store.Valid() && (store.buf == old(store.buf) || fresh(store.buf))
      ensures IsReady(old(pending), now, batch) && pending == Undue(old(pending), now)
      ensures out == old(out) + Fitting(batch, OUT_CAPACITY - |old(out)|)
      ensures store.Contents() == RecordAll(env, old(store.Contents()), batch, now)
    {
      CollectReady(now);
      batch := ready;
      OfferAllFits(out, batch);
      EmitReady(store, now);
    }
  }

  // The second loop on values.
  function OfferAll(out: seq<Event>, batch: seq<Event>): seq<Event>
    decreases |batch|
  {
    if batch == [] then out else OfferAll(SyncQueue.TrySend(out, OUT_CAPACITY, batch[0]), batch[1..])
  }

  function RecordAll(env: Env, v: Status.View, batch: seq<Event>, now: Time): Status.View
    decreases |batch|
  {
    if batch == [] then v
    else RecordAll(env, Status.AfterAddEvent(v, Record(env, batch[0]), now), batch[1..], now)
  }

  /** The ring then ends in the records of the batch, in order; the last of them is the last event. */
  lemma {:induction false} RecordAllRing(env: Env, v: Status.View, batch: seq<Event>, now: Time)
    requires v.ring == Status.Trim(v.ring, v.maxEvents) && forall e | e in batch :: e.when != ZERO
    ensures var after := RecordAll(env, v, batch, now);
            && after.maxEvents == v.maxEvents && after.ring == Status.Trim(v.ring + Records(env, batch), v.maxEvents)
            && after.fields.state == v.fields.state && after.fields.message == v.fields.message
            && (batch != [] ==>
                  var r := Record(env, batch[|batch| - 1]);
                  after.fields.lastEvent == r.op + " " + r.path && after.fields.updatedAt == now)
    decreases |batch|
  {
    if batch == [] {
      assert v.ring + Records(env, batch) == v.ring;
    } else {
      var record, next := Record(env, batch[0]), Status.AfterAddEvent(v, Record(env, batch[0]), now);
      assert batch[0] in batch && Status.Stamp(record, now) == record;
      RecordAllRing(env, next, batch[1..], now);
      assert Records(env, batch) == [record] + Records(env, batch[1..]);
      Status.TrimAfter(v.ring + [record], Records(env, batch[1..]), v.maxEvents);
      assert v.ring + [record] + Records(env, batch[1..]) == v.ring + Records(env, batch);
    }
  }

  function Fitting(batch: seq<Event>, room: nat): seq<Event> {
    if |batch| <= room then batch else batch[..room]
  }

  lemma {:induction false} OfferAllFits(out: seq<Event>, batch: seq<Event>)
    requires |out| <= OUT_CAPACITY
    ensures OfferAll(out, batch) == out + Fitting(batch, OUT_CAPACITY - |out|)
    decreases |batch|
  {
    if batch == [] {
    } else {
      OfferAllFits(SyncQueue.TrySend(out, OUT_CAPACITY, batch[0]), batch[1..]);
    }
  }

  // ready grows by one event.
  function Collected(ready: seq<Event>, evt: Event): (r: seq<Event>)
    ensures r == ready + [evt]
    ensures Paths(r) == Paths(ready) + {evt.path}
    ensures DistinctPaths(ready) && evt.path !in Paths(ready) ==> DistinctPaths(r)
    ensures forall e | e in r :: e in ready || e == evt
  {
    ready + [evt]
  }
}
