/**
  The tracking-window calculator: the current 15-day chunk, counted in
  whole days from the fixed base date 2024-01-26, reported as two stamps
  with the fixed time of day 08:00.

  The wall clock is not read here: the current instant `today` is a
  parameter. Dates are day ordinals; a printed stamp keeps the ordinal and
  the literal time of day of the format string.
 */
module Chunk {
  import opened Clock

  /** Day ordinal of 2024-01-26, the date every chunk is counted from. */
  const BaseOrdinal: int := 738911

  /** `datetime(2024, 1, 26)`: midnight of the base date. */
  const BaseStart: DateTime := DateTime(BaseOrdinal, 0)

  /** Length of one chunk, in days. */
  const ChunkLength: int := 15

  /** The time of day written into every stamp by the format string. */
  const StampHour: int := 8
  const StampMinute: int := 0

  /** What `strftime('%Y-%m-%dT08:00')` keeps of a date-time: its date and a constant time of day. */
  datatype Stamp = Stamp(ordinal: int, hour: int, minute: int)

  /** The pair of stamps the calculator returns. */
  datatype Window = Window(start: Stamp, end: Stamp)

  /** Rendering of a date-time with the fixed 08:00 suffix; its own time of day is discarded. */
  function Format(dt: DateTime): (s: Stamp)
    ensures s.ordinal == dt.ordinal
    ensures s.hour == StampHour && s.minute == StampMinute
  {
    Stamp(dt.ordinal, StampHour, StampMinute)
  }

  /** The instant a stamp denotes, read back as a date-time. */
  function StampTime(s: Stamp): DateTime {
    DateTime(s.ordinal, s.hour * SecondsPerHour + s.minute * 60)
  }

  /**
    Python's `a // b` for a positive divisor: the floor of the quotient.
    Dafny's `/` is Euclidean, which for a positive divisor is the same
    thing, including for a negative dividend.
   */
  function FloorDiv(a: int, b: int): (q: int)
    requires b > 0
    ensures q * b <= a < q * b + b
  {
    a / b
  }

  /** Division that truncates toward zero, as C or Java would do it; shown only for contrast. */
  function TruncDiv(a: int, b: int): int
    requires b > 0
  {
    if a >= 0 then a / b else -((-a) / b)
  }

  /** `(today - base_start_date).days`: whole days since base midnight, rounded down. */
  function DaysSinceBase(today: DateTime): (d: int)
    ensures Seconds(Midnight(BaseOrdinal + d)) <= Seconds(today) < Seconds(Midnight(BaseOrdinal + d + 1))
  {
    Sub(today, BaseStart).days
  }

  /** `days_since_base // chunk_length`: the index of the chunk that holds day `d`. */
  function ChunksSinceBase(d: int): (k: int)
    ensures k * ChunkLength <= d < k * ChunkLength + ChunkLength
  {
    FloorDiv(d, ChunkLength)
  }

  /** A day ordinal that is a whole number of chunks away from the base date. */
  predicate OnGrid(ordinal: int) {
    (ordinal - BaseOrdinal) % ChunkLength == 0
  }

  /** `get_current_chunk_dates`, with the current instant passed in. */
  function CurrentChunkDates(today: DateTime): (w: Window)
    ensures w.start.hour == StampHour && w.start.minute == StampMinute
    ensures w.end.hour == StampHour && w.end.minute == StampMinute
    ensures OnGrid(w.start.ordinal)
    ensures w.end.ordinal == w.start.ordinal + ChunkLength
    ensures w.start.ordinal <= BaseOrdinal + DaysSinceBase(today) < w.end.ordinal
  {
    var daysSinceBase := DaysSinceBase(today);
    var chunksSinceBase := ChunksSinceBase(daysSinceBase);
    var startDate := AddDays(BaseStart, chunksSinceBase * ChunkLength);
    var endDate := AddDays(startDate, ChunkLength);
    Window(Format(startDate), Format(endDate))
  }

  /**
    The window start is the only grid day whose 15-day span holds the
    current day: any other candidate start either lies after today or
    leaves today outside its span.
   */
  lemma StartIsUniqueGridDay(today: DateTime, s: int)
    requires OnGrid(s)
    requires s <= BaseOrdinal + DaysSinceBase(today) < s + ChunkLength
    ensures CurrentChunkDates(today).start.ordinal == s
  {
    var w := CurrentChunkDates(today);
    var j := (s - BaseOrdinal) / ChunkLength;
    var k := (w.start.ordinal - BaseOrdinal) / ChunkLength;
    assert s == BaseOrdinal + j * ChunkLength;
    assert w.start.ordinal == BaseOrdinal + k * ChunkLength;
    assert (j - k) * ChunkLength < ChunkLength;
    assert (k - j) * ChunkLength < ChunkLength;
  }

  /** For a valid date-time the day count is just the distance between ordinals. */
  lemma DaysSinceBaseIsOrdinalDistance(today: DateTime)
    requires Valid(today)
    ensures DaysSinceBase(today) == today.ordinal - BaseOrdinal
  {
    SubDays(today, BaseStart);
  }

  /** On a day that is an exact multiple of 15 from the base, the new window starts that very day. */
  lemma BoundaryDayOpensNewWindow(today: DateTime)
    requires DaysSinceBase(today) % ChunkLength == 0
    ensures CurrentChunkDates(today).start.ordinal == BaseOrdinal + DaysSinceBase(today)
  {
    StartIsUniqueGridDay(today, BaseOrdinal + DaysSinceBase(today));
  }

  /** Before the base date the window lies wholly before the base date too. */
  lemma WindowBeforeBase(today: DateTime)
    requires Seconds(today) < Seconds(BaseStart)
    ensures CurrentChunkDates(today).end.ordinal <= BaseOrdinal
  {
    var d := DaysSinceBase(today);
    assert d < 0;
  }

  /**
    One hour before the base date (2024-01-25 23:00) the window is
    2024-01-11 .. 2024-01-26: floor division yields chunk -1, whereas
    truncating division would have yielded chunk 0, whose window
    2024-01-26 .. 2024-02-10 does not hold the day.
   */
  lemma DayBeforeBaseUsesPreviousChunk()
    ensures DaysSinceBase(DateTime(BaseOrdinal - 1, 23 * SecondsPerHour)) == -1
    ensures CurrentChunkDates(DateTime(BaseOrdinal - 1, 23 * SecondsPerHour)).start.ordinal == BaseOrdinal - ChunkLength
    ensures CurrentChunkDates(DateTime(BaseOrdinal - 1, 23 * SecondsPerHour)).end.ordinal == BaseOrdinal
    ensures TruncDiv(-1, ChunkLength) * ChunkLength == 0
  {
    DaysSinceBaseIsOrdinalDistance(DateTime(BaseOrdinal - 1, 23 * SecondsPerHour));
  }

  /** Two valid instants on the same date give the same window, whatever their times of day. */
  lemma SameDateSameWindow(a: DateTime, b: DateTime)
    requires Valid(a) && Valid(b)
    requires a.ordinal == b.ordinal
    ensures CurrentChunkDates(a) == CurrentChunkDates(b)
  {
    DaysSinceBaseIsOrdinalDistance(a);
    DaysSinceBaseIsOrdinalDistance(b);
  }

  /** A later instant never gets an earlier window. */
  lemma WindowIsMonotone(a: DateTime, b: DateTime)
    requires Seconds(a) <= Seconds(b)
    ensures CurrentChunkDates(a).start.ordinal <= CurrentChunkDates(b).start.ordinal
  {
    var da := DaysSinceBase(a);
    var db := DaysSinceBase(b);
    assert (BaseOrdinal + da) * SecondsPerDay < (BaseOrdinal + db + 1) * SecondsPerDay;
    assert da <= db;
    var ka := ChunksSinceBase(da);
    var kb := ChunksSinceBase(db);
    assert ka * ChunkLength < (kb + 1) * ChunkLength;
    assert ka <= kb;
  }

  /** Moving the current instant on by 15 days moves the window on by exactly one chunk. */
  lemma WindowIsPeriodic(today: DateTime)
    ensures CurrentChunkDates(AddDays(today, ChunkLength)).start.ordinal == CurrentChunkDates(today).start.ordinal + ChunkLength
  {
    var later := AddDays(today, ChunkLength);
    var d := DaysSinceBase(today);
    var d' := DaysSinceBase(later);
    assert d' == d + ChunkLength by {
      var t := Sub(today, BaseStart);
      var t' := Sub(later, BaseStart);
      SplitIsUnique(t'.days, t'.seconds, t.days + ChunkLength, t.seconds);
    }
    StartIsUniqueGridDay(later, CurrentChunkDates(today).start.ordinal + ChunkLength);
  }

  /**
    In seconds, the current instant lies in the window shifted back by the
    eight hours of the fixed time of day: on the window's first day it may
    precede the printed start, but it always precedes the printed end.
   */
  lemma InstantWithinShiftedWindow(today: DateTime)
    ensures Seconds(StampTime(CurrentChunkDates(today).start)) - StampHour * SecondsPerHour <= Seconds(today)
    ensures Seconds(today) < Seconds(StampTime(CurrentChunkDates(today).end)) - StampHour * SecondsPerHour
  {
    var w := CurrentChunkDates(today);
    var d := DaysSinceBase(today);
    assert Seconds(Midnight(w.start.ordinal)) <= Seconds(Midnight(BaseOrdinal + d));
    assert Seconds(Midnight(BaseOrdinal + d + 1)) <= Seconds(Midnight(w.end.ordinal));
  }

  /** At midnight of the base date the instant is earlier than the window's printed start. */
  lemma InstantMayPrecedePrintedStart()
    ensures Seconds(BaseStart) < Seconds(StampTime(CurrentChunkDates(BaseStart).start))
  {
    BoundaryDayOpensNewWindow(BaseStart);
  }

  /**
    The worked example: on 2024-02-10 (15 days after the base) the window
    is 2024-02-10T08:00 .. 2024-02-25T08:00; on 2024-02-09 it is still
    2024-01-26T08:00 .. 2024-02-10T08:00.
   */
  lemma ExampleWindows(second: int)
    requires 0 <= second < SecondsPerDay
    ensures CurrentChunkDates(DateTime(BaseOrdinal + 15, second))
         == Window(Stamp(BaseOrdinal + 15, 8, 0), Stamp(BaseOrdinal + 30, 8, 0))
    ensures CurrentChunkDates(DateTime(BaseOrdinal + 14, second))
         == Window(Stamp(BaseOrdinal, 8, 0), Stamp(BaseOrdinal + 15, 8, 0))
  {
    DaysSinceBaseIsOrdinalDistance(DateTime(BaseOrdinal + 15, second));
    DaysSinceBaseIsOrdinalDistance(DateTime(BaseOrdinal + 14, second));
  }
}
