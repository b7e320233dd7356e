// Normalized filesystem operations and how operations on one path merge.
module Events {
  import opened GoTime

  datatype Op = Unknown | Create | Write | Remove | Rename | Chmod

  datatype Event = Event(path: string, op: Op, when: Time)

  // The bits of an fsnotify operation.
  const CREATE: bv32 := 1
  const WRITE: bv32 := 2
  const REMOVE: bv32 := 4
  const RENAME: bv32 := 8
  const CHMOD: bv32 := 16

  function NormalizeOp(bits: bv32): Op {
    if bits & CREATE == CREATE then Create
    else if bits & WRITE == WRITE then Write
    else if bits & REMOVE == REMOVE then Remove
    else if bits & RENAME == RENAME then Rename
    else if bits & CHMOD == CHMOD then Chmod
    else Unknown
  }

  function Priority(op: Op): nat {
    match op
    case Remove => 5
    case Rename => 4
    case Create => 3
    case Write => 2
    case Chmod => 1
    case Unknown => 0
  }

  function MergeOp(current: Op, next: Op): Op {
    if Priority(next) >= Priority(current) then next else current
  }

  function OpString(op: Op): string {
    match op
    case Create => "CREATE"
    case Write => "WRITE"
    case Remove => "REMOVE"
    case Rename => "RENAME"
    case Chmod => "CHMOD"
    case Unknown => "UNKNOWN"
  }

  /** The labels; different operations have different ones. */
  lemma OpStrings(a: Op, b: Op)
    ensures OpString(Create) == "CREATE" && OpString(Write) == "WRITE" && OpString(Remove) == "REMOVE"
    ensures OpString(Rename) == "RENAME" && OpString(Chmod) == "CHMOD" && OpString(Unknown) == "UNKNOWN"
    ensures OpString(a) == OpString(b) ==> a == b
  {
    if OpString(a) == OpString(b) {
      assert OpString(a)[1] == OpString(b)[1] && OpString(a)[2] == OpString(b)[2];
    }
  }

  ghost predicate Flagged(bits: bv32, op: Op) {
    match op
    case Create => bits & CREATE != 0
    case Write => bits & WRITE != 0
    case Remove => bits & REMOVE != 0
    case Rename => bits & RENAME != 0
    case Chmod => bits & CHMOD != 0
    case Unknown => false
  }

  /** normalizeOp returns a flagged operation if there is one, but not always the one that
      mergeOp would prefer: it prefers create and write to remove and rename, mergeOp the other
      way round. They agree exactly when the two kinds are not flagged together. */
  lemma NormalizePreference(bits: bv32)
    ensures NormalizeOp(bits) == Unknown <==> forall op :: !Flagged(bits, op)
    ensures NormalizeOp(bits) != Unknown ==> Flagged(bits, NormalizeOp(bits))
    ensures (forall op | Flagged(bits, op) :: Priority(op) <= Priority(NormalizeOp(bits))) <==>
            !((Flagged(bits, Create) || Flagged(bits, Write)) && (Flagged(bits, Remove) || Flagged(bits, Rename)))
  {
    assert (bits & CREATE == CREATE <==> bits & CREATE != 0) && (bits & WRITE == WRITE <==> bits & WRITE != 0);
    assert (bits & REMOVE == REMOVE <==> bits & REMOVE != 0) && (bits & RENAME == RENAME <==> bits & RENAME != 0);
    assert bits & CHMOD == CHMOD <==> bits & CHMOD != 0;
    assert NormalizeOp(bits) == Unknown <==>
           !Flagged(bits, Create) && !Flagged(bits, Write) && !Flagged(bits, Remove)
           && !Flagged(bits, Rename) && !Flagged(bits, Chmod);
  }

  // The operations in the order in which normalizeOp looks for them, and their bits.
  const SWITCH: seq<Op> := [Create, Write, Remove, Rename, Chmod]

  /** normalizeOp returns the first operation flagged. */
  lemma NormalizeFirst(bits: bv32, i: nat)
    requires i < |SWITCH|
    ensures NormalizeOp(bits) == SWITCH[i] <==>
            Flagged(bits, SWITCH[i]) && forall j | 0 <= j < i :: !Flagged(bits, SWITCH[j])
  {
    assert (bits & CREATE == CREATE <==> bits & CREATE != 0) && (bits & WRITE == WRITE <==> bits & WRITE != 0);
    assert (bits & REMOVE == REMOVE <==> bits & REMOVE != 0) && (bits & RENAME == RENAME <==> bits & RENAME != 0);
    assert bits & CHMOD == CHMOD <==> bits & CHMOD != 0;
    if forall j | 0 <= j < i :: !Flagged(bits, SWITCH[j]) {
      assert i > 0 ==> !Flagged(bits, SWITCH[0]);
      assert i > 1 ==> !Flagged(bits, SWITCH[1]);
      assert i > 2 ==> !Flagged(bits, SWITCH[2]);
      assert i > 3 ==> !Flagged(bits, SWITCH[3]);
    }
  }

  /** The operations are the five lowest bits; without any of them the operation is unknown. */
  lemma NoOperation(bits: bv32)
    ensures NormalizeOp(bits) == Unknown <==> bits & 31 == 0
    ensures NormalizeOp(1) == Create && NormalizeOp(2) == Write && NormalizeOp(4) == Remove
    ensures NormalizeOp(8) == Rename && NormalizeOp(16) == Chmod
  {}
}
