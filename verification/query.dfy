// SELECT ... ORDER BY ... LIMIT: which lists of rows answer such a query.
module Query {
  import opened Text

  ghost predicate TotalPreorder<R(!new)>(le: (R, R) -> bool) {
    && (forall a, b :: le(a, b) || le(b, a))
    && (forall a, b, c :: le(a, b) && le(b, c) ==> le(a, c))
  }

  /** out lists distinct rows in order, at most limit of them, and leaves a row out only if the
      limit is reached and no listed row comes after it. Rows that compare equal may come in any
      order, as SQL allows. */
  ghost predicate Answers<R>(le: (R, R) -> bool, rows: set<R>, limit: nat, out: seq<R>) {
    && NoDup(out)
    && (forall r | r in out :: r in rows)
    && (forall i, j | 0 <= i < j < |out| :: le(out[i], out[j]))
    && |out| <= limit
    && (forall r | r in rows && r !in out :: |out| == limit && forall o | o in out :: le(o, r))
  }

  // A least row, found by comparing all of them.
  method Least<R(==, !new)>(rows: set<R>, le: (R, R) -> bool) returns (least: R)
    requires rows != {} && TotalPreorder(le)
    ensures least in rows && forall r | r in rows :: le(least, r)
  {
    least :| least in rows;
    var rest := rows - {least};
    while rest != {}
      invariant least in rows && rest <= rows
      invariant forall r | r in rows && r !in rest :: le(least, r)
    {
      var r :| r in rest;
      rest := rest - {r};
      if !le(least, r) {
        least := r;
      }
    }
  }

  /** The engine's side of a query. */
  method Select<R(==, !new)>(rows: set<R>, le: (R, R) -> bool, limit: nat) returns (out: seq<R>)
    requires TotalPreorder(le)
    ensures Answers(le, rows, limit, out)
  {
    out := [];
    var rest := rows;
    while |out| < limit && rest != {}
      invariant |out| <= limit && rest <= rows
      invariant NoDup(out) && (forall r | r in rows :: r in rest <==> r !in out) && (forall r | r in out :: r in rows)
      invariant forall i, j | 0 <= i < j < |out| :: le(out[i], out[j])
      invariant forall o, r | o in out && r in rest :: le(o, r)
      decreases rest
    {
      var least := Least(rest, le);
      rest := rest - {least};
      out := out + [least];
    }
  }

  lemma {:induction false} SizeOfList<R>(xs: seq<R>)
    requires NoDup(xs)
    ensures |Elements(xs)| == |xs|
  {
    if xs == [] {
    } else {
      var init, last := xs[..|xs| - 1], xs[|xs| - 1];
      SizeOfList(init);
      assert last !in init;
      assert Elements(xs) == Elements(init) + {last};
    }
  }

  lemma NotLonger<R>(le: (R, R) -> bool, rows: set<R>, limit: nat, a: seq<R>, b: seq<R>)
    requires Answers(le, rows, limit, a) && Answers(le, rows, limit, b)
    ensures |a| <= |b|
  {
    if |b| < |a| {
      assert forall r | r in rows :: r in b;
      assert Elements(a) <= Elements(b);
      SizeOfList(a);
      SizeOfList(b);
      SubsetSize(Elements(a), Elements(b));
    }
  }

  lemma SubsetSize<R>(a: set<R>, b: set<R>)
    requires a <= b
    ensures |a| <= |b|
  {
    if a == {} {
    } else {
      var x :| x in a;
      SubsetSize(a - {x}, b - {x});
    }
  }

  // The k-th rows of two answers come before each other.
  lemma Interleaved<R>(le: (R, R) -> bool, rows: set<R>, limit: nat, a: seq<R>, b: seq<R>, k: nat)
    requires Answers(le, rows, limit, a) && Answers(le, rows, limit, b)
    requires k < |a| && k < |b| && a[..k] == b[..k]
    ensures le(b[k], a[k]) || a[k] == b[k]
  {
    assert forall i | 0 <= i < k :: a[i] == a[..k][i] && b[i] == b[..k][i];
    if a[k] in b {
      var j :| 0 <= j < |b| && b[j] == a[k];
      assert j >= k;
    }
  }

  /** When no two different rows compare equal, a query has only one answer. */
  lemma {:induction false} OneAnswer<R>(le: (R, R) -> bool, rows: set<R>, limit: nat, a: seq<R>, b: seq<R>)
    requires Answers(le, rows, limit, a) && Answers(le, rows, limit, b)
    requires forall r, q | r in rows && q in rows && le(r, q) && le(q, r) :: r == q
    ensures a == b
  {
    NotLonger(le, rows, limit, a, b);
    NotLonger(le, rows, limit, b, a);
    for k := 0 to |a|
      invariant a[..k] == b[..k]
    {
      Interleaved(le, rows, limit, a, b, k);
      Interleaved(le, rows, limit, b, a, k);
      assert a[k] in a && b[k] in b;
      assert a[..k + 1] == a[..k] + [a[k]] && b[..k + 1] == b[..k] + [b[k]];
    }
    assert a[..|a|] == a && b[..|b|] == b;
  }
}
