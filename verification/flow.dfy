// Sequences with some positions removed.
module Flow {
  /** xs without the elements at the lost positions. */
  function Kept<T>(xs: seq<T>, lost: set<nat>): seq<T> {
    if xs == [] then []
    else
      var n: nat := |xs| - 1;
      Kept(xs[..n], lost) + if n in lost then [] else [xs[n]]
  }

  /** The position in xs of the m-th kept element. */
  function Origin<T>(xs: seq<T>, lost: set<nat>, m: nat): (i: nat)
    requires m < |Kept(xs, lost)|
    ensures i < |xs| && i !in lost && xs[i] == Kept(xs, lost)[m]
  {
    var n: nat := |xs| - 1;
    if m < |Kept(xs[..n], lost)| then Origin(xs[..n], lost, m) else n
  }

  predicate Positions<T>(xs: seq<T>, lost: set<nat>) {
    forall i | i in lost :: i < |xs|
  }

  lemma {:induction false} Unaffected<T>(xs: seq<T>, lost: set<nat>, i: nat)
    requires i >= |xs|
    ensures Kept(xs, lost + {i}) == Kept(xs, lost)
  {
    if xs == [] {
    } else {
      Unaffected(xs[..|xs| - 1], lost, i);
    }
  }

  /** A new element is kept, or lost at once. */
  lemma KeptAppend<T>(xs: seq<T>, lost: set<nat>, x: T)
    requires Positions(xs, lost)
    ensures Kept(xs + [x], lost) == Kept(xs, lost) + [x]
    ensures Kept(xs + [x], lost + {|xs|}) == Kept(xs, lost)
  {
    assert (xs + [x])[..|xs|] == xs;
    Unaffected(xs, lost, |xs|);
  }

  /** Losing the m-th kept element removes it and nothing else. */
  lemma {:induction false} LoseKept<T>(xs: seq<T>, lost: set<nat>, m: nat)
    requires m < |Kept(xs, lost)|
    ensures var k := Kept(xs, lost);
            Kept(xs, lost + {Origin(xs, lost, m)}) == k[..m] + k[m + 1..]
  {
    var n: nat := |xs| - 1;
    var init, k := xs[..n], Kept(xs, lost);
    var before := Kept(init, lost);
    if m < |before| {
      LoseKept(init, lost, m);
      var tail := if n in lost then [] else [xs[n]];
      assert k[..m] + k[m + 1..] == before[..m] + before[m + 1..] + tail;
    } else {
      Unaffected(init, lost, n);
      assert k[..m] + k[m + 1..] == before;
    }
  }

  lemma {:induction false} OriginOrder<T>(xs: seq<T>, lost: set<nat>, m: nat, m': nat)
    requires m < m' < |Kept(xs, lost)|
    ensures Origin(xs, lost, m) < Origin(xs, lost, m')
  {
    var init := xs[..|xs| - 1];
    if m' < |Kept(init, lost)| {
      OriginOrder(init, lost, m, m');
    }
  }

  /** Every position that is not lost is the origin of a kept element. */
  lemma {:induction false} OriginOnto<T>(xs: seq<T>, lost: set<nat>, i: nat) returns (m: nat)
    requires i < |xs| && i !in lost
    ensures m < |Kept(xs, lost)| && Origin(xs, lost, m) == i
  {
    var n: nat := |xs| - 1;
    if i < n {
      m := OriginOnto(xs[..n], lost, i);
    } else {
      m := |Kept(xs[..n], lost)|;
    }
  }

  lemma {:induction false} KeptCount<T>(xs: seq<T>, lost: set<nat>)
    requires Positions(xs, lost)
    ensures |Kept(xs, lost)| + |lost| == |xs|
  {
    if xs == [] {
      assert lost == {};
    } else {
      var n: nat := |xs| - 1;
      var init := xs[..n];
      KeptCount(init, lost - {n});
      Unaffected(init, lost - {n}, n);
      if n in lost {
        assert lost - {n} + {n} == lost;
      } else {
        assert lost - {n} == lost;
      }
    }
  }
}
