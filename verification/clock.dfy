/**
  Naive date-times and time differences, as Python's `datetime` module
  represents them: a date-time is a proleptic Gregorian day ordinal
  (0001-01-01 is day 1) plus a second of that day, and a difference is a
  `timedelta` kept in normal form (whole days, possibly negative, plus a
  non-negative remainder of seconds below one day).

  Calendar rendering (year, month, day) is not modelled: a date is its ordinal.
  Microseconds are not modelled either; see the README.
 */
module Clock {

  const SecondsPerDay: int := 86400
  const SecondsPerHour: int := 3600

  /** A naive date-time: a day ordinal and the second within that day. */
  datatype DateTime = DateTime(ordinal: int, second: int)

  /** The range Python enforces for the time-of-day part. */
  predicate Valid(dt: DateTime) {
    0 <= dt.second < SecondsPerDay
  }

  /** Midnight at the start of the given day. */
  function Midnight(ordinal: int): (dt: DateTime)
    ensures Valid(dt)
  {
    DateTime(ordinal, 0)
  }

  /** The position of a date-time on a single seconds axis. */
  function Seconds(dt: DateTime): int {
    dt.ordinal * SecondsPerDay + dt.second
  }

  /** A day-and-remainder split of a seconds count is unique. */
  lemma SplitIsUnique(d1: int, r1: int, d2: int, r2: int)
    requires 0 <= r1 < SecondsPerDay && 0 <= r2 < SecondsPerDay
    requires d1 * SecondsPerDay + r1 == d2 * SecondsPerDay + r2
    ensures d1 == d2 && r1 == r2
  {
    assert (d1 - d2) * SecondsPerDay == r2 - r1;
  }

  /** Python's `timedelta`, stored as days and seconds. */
  datatype TimeDelta = TimeDelta(days: int, seconds: int)

  /** The normal form Python keeps every `timedelta` in. */
  predicate Normalized(t: TimeDelta) {
    0 <= t.seconds < SecondsPerDay
  }

  /** `timedelta.total_seconds()`, exact. */
  function TotalSeconds(t: TimeDelta): int {
    t.days * SecondsPerDay + t.seconds
  }

  /** The `timedelta` Python builds for a span of `s` seconds. */
  function Normalize(s: int): (t: TimeDelta)
    ensures Normalized(t)
    ensures TotalSeconds(t) == s
    ensures t.days * SecondsPerDay <= s < t.days * SecondsPerDay + SecondsPerDay
  {
    TimeDelta(s / SecondsPerDay, s % SecondsPerDay)
  }

  /** A normalised `timedelta` is determined by its total: normalising it again changes nothing. */
  lemma NormalizeOfTotal(t: TimeDelta)
    requires Normalized(t)
    ensures Normalize(TotalSeconds(t)) == t
  {
    var u := Normalize(TotalSeconds(t));
    SplitIsUnique(u.days, u.seconds, t.days, t.seconds);
  }

  /** `a - b` for two naive date-times. */
  function Sub(a: DateTime, b: DateTime): (t: TimeDelta)
    ensures Normalized(t)
    ensures TotalSeconds(t) == Seconds(a) - Seconds(b)
  {
    Normalize(Seconds(a) - Seconds(b))
  }

  /** `dt + timedelta(days=n)`: the time of day is kept and the date moves by n days. */
  function AddDays(dt: DateTime, n: int): (r: DateTime)
    ensures Valid(dt) ==> Valid(r)
    ensures r.second == dt.second
    ensures Seconds(r) == Seconds(dt) + n * SecondsPerDay
  {
    DateTime(dt.ordinal + n, dt.second)
  }

  /**
    Between two valid date-times, the whole-day part of the difference is
    the difference of ordinals, less one when the first one's time of day is
    earlier than the second one's.
   */
  lemma SubDays(a: DateTime, b: DateTime)
    requires Valid(a) && Valid(b)
    ensures Sub(a, b).days == (if a.second >= b.second then a.ordinal - b.ordinal else a.ordinal - b.ordinal - 1)
  {
    var t := Sub(a, b);
    if a.second >= b.second {
      assert TotalSeconds(t) == (a.ordinal - b.ordinal) * SecondsPerDay + (a.second - b.second);
      SplitIsUnique(t.days, t.seconds, a.ordinal - b.ordinal, a.second - b.second);
    } else {
      assert TotalSeconds(t) == (a.ordinal - b.ordinal - 1) * SecondsPerDay + (SecondsPerDay + a.second - b.second);
      SplitIsUnique(t.days, t.seconds, a.ordinal - b.ordinal - 1, SecondsPerDay + a.second - b.second);
    }
  }
}
