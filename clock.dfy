/**
 * The half-hour window of genChecksum's local branch. The wall-clock reading
 * is given broken down into its local-time fields; the minute is rounded down
 * to 0 or 30 and the seconds and nanoseconds are cleared. The window's epoch
 * milliseconds depend on the process's time zone, which is a parameter here.
 */
module Clock {
  /** A reading of `time.Now()` in the process's location, as `t.Year()`, `t.Month()`, ... report it. */
  datatype LocalTime = LocalTime(year: int, month: int, day: int, hour: int, minute: int, second: int, nanosecond: int)

  /** The ranges Go's accessors report for a time value. */
  predicate Valid(t: LocalTime) {
    1 <= t.month <= 12 && 1 <= t.day <= 31 && 0 <= t.hour < 24 &&
    0 <= t.minute < 60 && 0 <= t.second < 60 && 0 <= t.nanosecond < 1_000_000_000
  }

  /** `time.Date(y, mo, d, h, 30*(m/30), 0, 0, loc)`: the start of the half hour the reading falls in. */
  function Bucket(t: LocalTime): (b: LocalTime)
    requires Valid(t)
    ensures Valid(b)
    ensures b.minute == 0 || b.minute == 30
    ensures b.minute <= t.minute < b.minute + 30
    ensures b.second == 0 && b.nanosecond == 0
    ensures b.year == t.year && b.month == t.month && b.day == t.day && b.hour == t.hour
  {
    t.(minute := 30 * (t.minute / 30), second := 0, nanosecond := 0)
  }

  /** Two readings in the same half hour: same date and hour, and the same half of the hour. */
  predicate SameHalfHour(a: LocalTime, b: LocalTime) {
    a.year == b.year && a.month == b.month && a.day == b.day && a.hour == b.hour &&
    a.minute / 30 == b.minute / 30
  }

  /** Bucketing a window start leaves it where it is. */
  lemma BucketIdempotent(t: LocalTime)
    requires Valid(t)
    ensures Bucket(Bucket(t)) == Bucket(t)
  {
  }

  /** Two readings fall in the same window exactly when they are in the same half hour. */
  lemma BucketEqualIff(a: LocalTime, b: LocalTime)
    requires Valid(a) && Valid(b)
    ensures Bucket(a) == Bucket(b) <==> SameHalfHour(a, b)
  {
    if Bucket(a) == Bucket(b) {
      assert 30 * (a.minute / 30) == 30 * (b.minute / 30);
    }
  }

  /**
   * `int64(math.Floor(float64(ms) / 1e6))`: the epoch milliseconds divided by
   * one million, rounded down. This is neither seconds nor the window number.
   */
  function Timestamp(ms: int): (ts: int)
    ensures ts * 1_000_000 <= ms < (ts + 1) * 1_000_000
  {
    ms / 1_000_000
  }

  /**
   * The timestamp of the window `t` falls in; `zone` gives the epoch
   * milliseconds (`UnixMilli`) of a wall-clock reading in the process's location.
   */
  function WindowTimestamp(t: LocalTime, zone: LocalTime -> int): int
    requires Valid(t)
  {
    Timestamp(zone(Bucket(t)))
  }

  /** Every reading of the same half hour gives the same timestamp. */
  lemma SameHalfHourSameTimestamp(a: LocalTime, b: LocalTime, zone: LocalTime -> int)
    requires Valid(a) && Valid(b) && SameHalfHour(a, b)
    ensures WindowTimestamp(a, zone) == WindowTimestamp(b, zone)
  {
    BucketEqualIff(a, b);
  }

  /**
   * Windows are 1,800,000 ms apart while the timestamp steps every 1,000,000 ms,
   * so a later window never shares the timestamp of an earlier one.
   */
  lemma LaterWindowLaterTimestamp(ms1: int, ms2: int)
    requires ms2 >= ms1 + 1_800_000
    ensures Timestamp(ms2) > Timestamp(ms1)
  {
  }
}
