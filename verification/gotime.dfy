// Go's time.Time as a count of nanoseconds since its zero value,
// 1 January of year 1, 00:00:00 UTC.
module GoTime {
  type Time = int

  const ZERO: Time := 0
  const MILLISECOND: int := 1_000_000
  const SECOND: int := 1_000_000_000

  // Seconds from the zero time to the Unix epoch.
  const EPOCH: int := 62_135_596_800

  predicate IsZero(t: Time) { t == ZERO }

  // time.Time.Unix: whole seconds since the epoch, rounded down.
  function Unix(t: Time): int { t / SECOND - EPOCH }

  // time.Unix(sec, 0).
  function AtUnix(sec: int): Time { (sec + EPOCH) * SECOND }

  function WholeSecond(t: Time): Time { t / SECOND * SECOND }

  // The integer column encoding of the metadata store.
  function UnixTime(t: Time): int { if IsZero(t) then 0 else Unix(t) }

  function FromUnix(sec: int): Time { if sec == 0 then ZERO else AtUnix(sec) }

  /** What survives a trip through the database: the whole second, except that the second
      starting at the Unix epoch is read back as the zero time. */
  function Stored(t: Time): Time { if 0 <= t - EPOCH * SECOND < SECOND then ZERO else WholeSecond(t) }

  lemma EncodeDecode(t: Time)
    ensures FromUnix(UnixTime(t)) == Stored(t)
    ensures FromUnix(UnixTime(t)) == t <==> t % SECOND == 0 && t != EPOCH * SECOND
  {
    assert t == t / SECOND * SECOND + t % SECOND;
  }

  /** Reading a column and writing it back loses nothing, except for the one column value
      that denotes Go's zero time. */
  lemma DecodeEncode(sec: int)
    ensures UnixTime(FromUnix(sec)) == sec <==> sec != -EPOCH
    ensures UnixTime(FromUnix(-EPOCH)) == 0
  {
    assert (sec + EPOCH) * SECOND / SECOND == sec + EPOCH;
  }

  /** A column counts seconds since 1970, and 0 stands for Go's zero time; so the time read back is
      the start of the second stored. */
  lemma ColumnMeaning(t: Time, sec: int)
    ensures UnixTime(0) == 0 && FromUnix(0) == 0
    ensures t != 0 ==> 0 <= t - (UnixTime(t) + 62_135_596_800) * 1_000_000_000 < 1_000_000_000
    ensures sec != 0 ==> FromUnix(sec) == (sec + 62_135_596_800) * 1_000_000_000
    ensures Stored(t) == 0 || (Stored(t) % 1_000_000_000 == 0 && 0 <= t - Stored(t) < 1_000_000_000)
    ensures Stored(t) == 0 <==> 0 <= t < 1_000_000_000 || 0 <= t - 62_135_596_800 * 1_000_000_000 < 1_000_000_000
  {}
}
