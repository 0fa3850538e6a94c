# Tracking window and hours total, in Dafny

A model of the two pieces of logic in `nova.py`, a script that reports how
many campus hours a user logged in the current tracking window:

- the **tracking-window calculator** (`get_current_chunk_dates`): the current
  15-day chunk, counted in whole days from the base date 2024-01-26, returned
  as two stamps that carry the fixed time of day 08:00;
- the **hours aggregator** (`calculate_total_hours`): the sum of
  `end_at - begin_at` over every logged session, divided by 3600.

Three modules:

- `Clock` (`clock.dfy`) — naive date-times as Python's `datetime` holds them:
  a day ordinal (0001-01-01 is day 1) and a second of the day. It also holds
  `timedelta` in its normal form: whole days, which may be negative, and a
  remainder of seconds in `[0, 86400)`. Subtracting two date-times gives a
  normalised `timedelta`, so `.days` is the floor of the difference in days.
- `Chunk` (`chunk.dfy`) — the window calculator. The current instant is a
  parameter rather than a reading of the wall clock. The base date is the
  ordinal 738911 (2024-01-26). A printed stamp is a day ordinal plus the
  constant 08:00 that the format string writes.
- `Hours` (`hours.dfy`) — the aggregator. `SumSeconds` is a functional
  reference. `CalculateTotalHours` mirrors the accumulator loop, and its
  invariant ties the loop to that reference. Hours are an exact `real`.

Python's `//` with a positive divisor rounds toward negative infinity. Dafny's
`/` on `int` is Euclidean, which is the same for a positive divisor.
`Chunk.FloorDiv` states this as the contract `q*b <= a < q*b + b`, which also
holds for negative dividends. `Chunk.DayBeforeBaseUsesPreviousChunk` checks
the case `days_since_base = -1`.

The window holds today only in whole days. The day count is taken from
midnight of the base date, but the stamps say 08:00. So on a window's first
day, an instant before 08:00 lies in the window yet before its printed start
(`Chunk.InstantMayPrecedePrintedStart`).

## Model

| member | source | states |
|---|---|---|
| Clock.Normalize | nova.py:9 | a `timedelta` of s seconds has a seconds part in [0, 86400) and days equal to the floor of s / 86400, and its total is s |
| Clock.NormalizeOfTotal | nova.py:9 | a normalised `timedelta` is rebuilt unchanged from its total seconds (normal form is unique) |
| Clock.Sub | nova.py:9 | `a - b` is a normalised `timedelta` whose total is the distance between a and b in seconds |
| Clock.SubDays | nova.py:9 | for valid date-times, `(a - b).days` is the ordinal difference, less one when a's time of day is earlier than b's |
| Clock.AddDays | nova.py:13-14 | adding `timedelta(days=n)` keeps the time of day and moves the instant by exactly n days |
| Chunk.Format | nova.py:16 | the rendered stamp keeps the date and always carries the time 08:00, whatever the input's time of day |
| Chunk.FloorDiv | nova.py:12 | `a // b` for b > 0 is the floor quotient: q*b <= a < q*b + b, also for negative a |
| Chunk.DaysSinceBase | nova.py:7-9 | the day count d is the whole days since base midnight: today lies between midnight of base+d and midnight of base+d+1 |
| Chunk.ChunksSinceBase | nova.py:10-12 | the chunk index k satisfies k*15 <= d < k*15 + 15 |
| Chunk.CurrentChunkDates | nova.py:6-16 | the start is on the 15-day grid from the base; the end is 15 days after the start; today's day lies in [start, end); both stamps say 08:00 |
| Chunk.StartIsUniqueGridDay | nova.py:12-13 | any grid day whose 15-day span holds today's day is the window start |
| Chunk.DaysSinceBaseIsOrdinalDistance | nova.py:7-9 | for a valid date-time, the day count is its ordinal minus the base ordinal |
| Chunk.BoundaryDayOpensNewWindow | nova.py:12-13 | when the day count is a multiple of 15, the window starts on that very day |
| Chunk.WindowBeforeBase | nova.py:9-14 | an instant before the base date gets a window that ends no later than the base date |
| Chunk.DayBeforeBaseUsesPreviousChunk | nova.py:9-14 | at 2024-01-25 23:00 the day count is -1 and the window is base-15 .. base; truncating division would give chunk 0 instead |
| Chunk.SameDateSameWindow | nova.py:8-16 | two valid instants on the same date get the same window, whatever their times of day |
| Chunk.WindowIsMonotone | nova.py:9-13 | a later instant never gets an earlier window start |
| Chunk.WindowIsPeriodic | nova.py:9-14 | moving the instant on by 15 days moves the window start on by exactly 15 days |
| Chunk.InstantWithinShiftedWindow | nova.py:9-16 | in seconds, today lies in the printed window shifted back by 8 hours |
| Chunk.InstantMayPrecedePrintedStart | nova.py:7-16 | at base midnight the instant is earlier than the window's printed start 08:00 |
| Chunk.ExampleWindows | nova.py:6-16 | on 2024-02-10 the window is 02-10T08:00 .. 02-25T08:00; on 2024-02-09 it is 01-26T08:00 .. 02-10T08:00 |
| Hours.DurationIsDistance | nova.py:54-57 | a session's duration is end minus begin in seconds; it is non-negative exactly when the session is ordered |
| Hours.SumSecondsConcat | nova.py:52-57 | the sum over a concatenation is the sum of the two sums |
| Hours.SumSecondsContribution | nova.py:53-57 | each session adds its own duration to the sum, wherever it sits in the list |
| Hours.SumSecondsPermutation | nova.py:53-57 | reordering the sessions does not change the sum |
| Hours.SumSecondsNonNegative | nova.py:53-57 | if every session ends no earlier than it begins, the sum is non-negative |
| Hours.CalculateTotalHours | nova.py:51-59 | the loop returns the reference sum of durations divided by 3600, exactly |
| Hours.TotalHoursEmpty | nova.py:52-59 | an empty list of sessions gives 0 hours |
| Hours.TotalHoursAdditive | nova.py:52-59 | the total for two lists together is the sum of their totals |
| Hours.TotalHoursOrderIndependent | nova.py:52-59 | two lists with the same sessions in any order give the same total |
| Hours.TotalHoursNonNegative | nova.py:52-59 | the total is non-negative when every session is ordered |
| Hours.BackwardSessionCounts | nova.py:53-57 | a session that ends an hour before it begins is not filtered out; it lowers the total by one hour |

## Left out

- Reading the wall clock (`datetime.now()`, nova.py:8): the current instant is a parameter.
- Microseconds: date-times carry whole seconds. `.days` is the same for an instant and its whole-second floor, so the window is unaffected. Durations lose any sub-second part.
- Calendar rendering (`strftime`, nova.py:16): dates stay day ordinals, and only the fixed 08:00 time of day is modelled.
- Python's date range (years 1 to 9999), where `datetime` raises `OverflowError`: ordinals are unbounded.
- Parsing the ISO-8601 strings of a location record (`fromisoformat`, `rstrip('Z')`, nova.py:54-55): sessions arrive as parsed date-times. A record whose `end_at` is missing or null, which makes the script raise, is not modelled.
- Hours.CalculateTotalHours: sums exact integers and divides exactly in `real`, where the script adds floats and divides as a float. Rounding is not modelled.
- Token generation, the locations request and file I/O (`generate_token`, `query_user_hours`, nova.py:18-49): network and disk side effects with no logic of their own.
- Command-line handling and printing (nova.py:61-76): plumbing.
