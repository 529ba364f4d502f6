/** Instants are integer milliseconds since the epoch; calendar days are whole days since the epoch. */
module Time {

  const MsPerSecond: int := 1000
  const MsPerMinute: int := 60 * MsPerSecond
  const MsPerDay: int := 24 * 3600 * MsPerSecond

  /** The calendar day an instant falls on (days counted in UTC). */
  function DayOf(ms: int): int
  {
    ms / MsPerDay
  }

  /** `startOfDay`: the first instant of a day. */
  function StartOfDay(day: int): int
  {
    day * MsPerDay
  }

  /** An instant falls on day `d` exactly when it lies in `[StartOfDay(d), StartOfDay(d + 1))`. */
  lemma DayOfBounds(ms: int, d: int)
    ensures DayOf(ms) == d <==> StartOfDay(d) <= ms < StartOfDay(d + 1)
  {
    var q := ms / MsPerDay;
    assert q * MsPerDay <= ms < q * MsPerDay + MsPerDay;
    if d < q {
      assert d * MsPerDay + MsPerDay <= q * MsPerDay;
    } else if d > q {
      assert q * MsPerDay + MsPerDay <= d * MsPerDay;
    }
  }
}
