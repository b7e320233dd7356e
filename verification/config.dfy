// The parts of the configuration that size buffers and filter paths.
module Config {
  import opened Wrappers
  import opened Text

  /** A decoded configuration file: an absent number is 0, an absent list is empty. */
  datatype FileConfig = FileConfig(ignorePatterns: seq<string>, eventLogSize: int, syncQueueSize: int)

  /** The environment: "" is an unset variable, None a value strconv.Atoi rejects. */
  datatype Environment = Environment(ignorePatterns: string, eventLogSize: Option<int>, syncQueueSize: Option<int>)

  // Ending at i the word that began at start.
  function Emit(val: string, start: nat, i: nat, out: seq<string>): seq<string>
    requires start <= i <= |val|
  {
    if i > start then out + [val[start..i]] else out
  }

  // The scan of val from index i on, with the current word beginning at start and the pieces so
  // far in out.
  function Scan(val: string, start: nat, i: nat, out: seq<string>): seq<string>
    requires start <= i <= |val| + 1
    decreases |val| + 1 - i
  {
    if i > |val| then out
    else if i == |val| || val[i] == ',' then
      Scan(val, i + 1, i + 1, Emit(val, start, i, out))
    else Scan(val, start, i + 1, out)
  }

  // Nothing happens inside a word.
  lemma {:induction false} ScanWord(val: string, start: nat, i: nat, end: nat, out: seq<string>)
    requires start <= i <= end <= |val| && forall j | i <= j < end :: val[j] != ','
    ensures Scan(val, start, i, out) == Scan(val, start, end, out)
    decreases end - i
  {
    if i < end {
      ScanWord(val, start, i + 1, end, out);
    }
  }

  lemma Cut(val: string, start: nat, end: nat, out: seq<string>)
    requires start <= end < |val| && val[end] == ',' && ',' !in val[start..end]
    ensures Emit(val, start, end, out) + Split(val[end + 1..], ',') == out + Split(val[start..], ',')
  {
    var word := val[start..end];
    assert val[start..] == word + [','] + val[end + 1..];
    SplitWord(word, ',', val[end + 1..]);
    Assoc(out, if end > start then [word] else [], Split(val[end + 1..], ','));
  }

  lemma CutLast(val: string, start: nat, out: seq<string>)
    requires start <= |val| && ',' !in val[start..]
    ensures Emit(val, start, |val|, out) == out + Split(val[start..], ',')
  {
    assert val[start..|val|] == val[start..];
    SplitLastWord(val[start..], ',');
  }

  // The end of the word that begins at start.
  lemma WordEnd(val: string, start: nat) returns (end: nat)
    requires start <= |val|
    ensures start <= end <= |val| && ',' !in val[start..end] && (end < |val| ==> val[end] == ',')
    ensures forall j | start <= j < end :: val[j] != ','
  {
    end := start;
    while end < |val| && val[end] != ','
      invariant start <= end <= |val|
      invariant forall j | start <= j < end :: val[j] != ','
    {
      end := end + 1;
    }
  }

  lemma ScanPiece(val: string, start: nat, end: nat, out: seq<string>)
    requires start <= end < |val| && val[end] == ',' && forall j | start <= j < end :: val[j] != ','
    ensures Scan(val, start, start, out) == Scan(val, end + 1, end + 1, Emit(val, start, end, out))
  {
    ScanWord(val, start, start, end, out);
  }

  lemma ScanLast(val: string, start: nat, out: seq<string>)
    requires start <= |val| && forall j | start <= j < |val| :: val[j] != ','
    ensures Scan(val, start, start, out) == Emit(val, start, |val|, out)
  {
    ScanWord(val, start, start, |val|, out);
  }

  lemma {:induction false} ScanSplits(val: string, start: nat, out: seq<string>)
    requires start <= |val|
    ensures Scan(val, start, start, out) == out + Split(val[start..], ',')
    decreases |val| - start
  {
    var end := WordEnd(val, start);
    if end == |val| {
      ScanLast(val, start, out);
      CutLast(val, start, out);
    } else {
      ScanPiece(val, start, end, out);
      ScanSplits(val, end + 1, Emit(val, start, end, out));
      Cut(val, start, end, out);
    }
  }

  /** splitList: one pass over the value, cutting at each comma. */
  method SplitList(val: string) returns (out: seq<string>)
    ensures out == Split(val, ',')
  {
    out := [];
    var start := 0;
    for i := 0 to |val| + 1
      invariant start <= i
      invariant Scan(val, start, i, out) == Scan(val, 0, 0, [])
    {
      if i == |val| || val[i] == ',' {
        if i > start {
          out := out + [val[start..i]];
        }
        start := i + 1;
      }
    }
    ScanSplits(val, 0, []);
    assert val[0..] == val;
  }

  /** What splitList returns, for every value: the non-empty comma-free words whose comma-join is
      the value without superfluous commas; only the commas are lost; splitting a join of such
      words returns them, so joining and splitting again changes nothing. */
  lemma SplitListMeaning(val: string)
    ensures Clean(Split(val, ','), ',')
    ensures Join(Split(val, ','), ",") == Squeeze(val, ',', false)
    ensures Concat(Split(val, ',')) == Without(val, ',')
    ensures Split(Join(Split(val, ','), ","), ',') == Split(val, ',')
  {
    SplitClean(val, ',');
    JoinSplit(val, ',');
    ConcatSplit(val, ',');
    SplitJoin(Split(val, ','), ',');
  }

  lemma SplitListOfJoin(xs: seq<string>)
    requires Clean(xs, ',')
    ensures Split(Join(xs, ","), ',') == xs
  {
    SplitJoin(xs, ',');
  }

  class Settings {
    var ignorePatterns: seq<string>
    var eventLogSize: int
    var syncQueueSize: int

    ghost predicate Valid()
      reads this
    {
      eventLogSize > 0 && syncQueueSize > 0
    }

    // NewConfig.
    constructor ()
      ensures Valid() && eventLogSize == 20 && syncQueueSize == 1024
      ensures ignorePatterns == ["*.swp", "*.tmp", "*~", ".DS_Store"]
    {
      ignorePatterns := ["*.swp", "*.tmp", "*~", ".DS_Store"];
      eventLogSize := 20;
      syncQueueSize := 1024;
    }

    method ApplyConfigFile(fc: FileConfig)
      requires Valid()
      modifies this
      ensures Valid()
      ensures ignorePatterns == if fc.ignorePatterns != [] then fc.ignorePatterns else old(ignorePatterns)
      ensures eventLogSize == if fc.eventLogSize > 0 then fc.eventLogSize else old(eventLogSize)
      ensures syncQueueSize == if fc.syncQueueSize > 0 then fc.syncQueueSize else old(syncQueueSize)
    {
      if |fc.ignorePatterns| > 0 {
        ignorePatterns := fc.ignorePatterns;
      }
      if fc.eventLogSize > 0 {
        eventLogSize := fc.eventLogSize;
      }
      if fc.syncQueueSize > 0 {
        syncQueueSize := fc.syncQueueSize;
      }
    }

    method ApplyEnv(env: Environment)
      requires Valid()
      modifies this
      ensures Valid()
      ensures ignorePatterns == if env.ignorePatterns != "" then Split(env.ignorePatterns, ',') else old(ignorePatterns)
      ensures eventLogSize ==
              if env.eventLogSize.Some? && env.eventLogSize.value > 0 then env.eventLogSize.value
              else old(eventLogSize)
      ensures syncQueueSize ==
              if env.syncQueueSize.Some? && env.syncQueueSize.value > 0 then env.syncQueueSize.value
              else old(syncQueueSize)
    {
      if env.ignorePatterns != "" {
        ignorePatterns := SplitList(env.ignorePatterns);
      }
      if env.eventLogSize.Some? && env.eventLogSize.value > 0 {
        eventLogSize := env.eventLogSize.value;
      }
      if env.syncQueueSize.Some? && env.syncQueueSize.value > 0 {
        syncQueueSize := env.syncQueueSize.value;
      }
    }
  }
}
