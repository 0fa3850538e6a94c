/**
  The hours aggregator: the total time of a list of logged sessions, in
  hours. Each session contributes its end minus its begin; nothing is
  filtered or checked, so a session that ends before it begins lowers the
  total.

  Sessions arrive already parsed into date-times. Seconds are summed as
  exact integers and the final division by 3600 is exact, in `real`.
 */
module Hours {
  import opened Clock

  /** One logged session: `begin_at` and `end_at` of a location record. */
  datatype Location = Location(beginAt: DateTime, endAt: DateTime)

  /** `(end_at - begin_at).total_seconds()`. */
  function Duration(loc: Location): int {
    TotalSeconds(Sub(loc.endAt, loc.beginAt))
  }

  /** A session that does not end before it begins. */
  predicate Ordered(loc: Location) {
    Seconds(loc.beginAt) <= Seconds(loc.endAt)
  }

  /** Functional reference: the sum of all session durations, in seconds. */
  function SumSeconds(locations: seq<Location>): int {
    if |locations| == 0 then 0 else Duration(locations[0]) + SumSeconds(locations[1..])
  }

  /** Reference value of the total in hours, exact. */
  function TotalHours(locations: seq<Location>): real {
    SumSeconds(locations) as real / 3600.0
  }

  /** A session's duration is the distance between its two instants on the seconds axis. */
  lemma DurationIsDistance(loc: Location)
    ensures Duration(loc) == Seconds(loc.endAt) - Seconds(loc.beginAt)
    ensures Ordered(loc) <==> Duration(loc) >= 0
  {
  }

  /** The sum over a concatenation is the sum of the two sums. */
  lemma {:induction false} SumSecondsConcat(a: seq<Location>, b: seq<Location>)
    ensures SumSeconds(a + b) == SumSeconds(a) + SumSeconds(b)
  {
    if |a| == 0 {
      assert a + b == b;
    } else {
      assert (a + b)[1..] == a[1..] + b;
      SumSecondsConcat(a[1..], b);
    }
  }

  /** Every session contributes its own duration, wherever it sits in the list. */
  lemma SumSecondsContribution(a: seq<Location>, loc: Location, b: seq<Location>)
    ensures SumSeconds(a + [loc] + b) == SumSeconds(a + b) + Duration(loc)
  {
    SumSecondsConcat(a + [loc], b);
    SumSecondsConcat(a, [loc]);
    SumSecondsConcat(a, b);
    assert SumSeconds([loc]) == Duration(loc) by {
      assert [loc][1..] == [];
    }
  }

  /** Reordering the sessions does not change the sum. */
  lemma {:induction false} SumSecondsPermutation(a: seq<Location>, b: seq<Location>)
    requires multiset(a) == multiset(b)
    ensures SumSeconds(a) == SumSeconds(b)
    decreases |a|
  {
    if |a| == 0 {
      assert |b| == |multiset(b)| == 0;
    } else {
      var x := a[0];
      assert x in multiset(b) by {
        assert x in multiset(a);
      }
      var i :| 0 <= i < |b| && b[i] == x;
      var rest := b[..i] + b[i + 1..];
      assert b == b[..i] + [x] + b[i + 1..];
      SumSecondsContribution(b[..i], x, b[i + 1..]);
      assert a == [x] + a[1..];
      assert multiset(a[1..]) == multiset(rest) by {
        calc {
          multiset(a[1..]);
          multiset(a) - multiset{x};
          multiset(b) - multiset{x};
          multiset(b[..i] + [x] + b[i + 1..]) - multiset{x};
          multiset(rest);
        }
      }
      SumSecondsPermutation(a[1..], rest);
    }
  }

  /** If no session ends before it begins, the sum is not negative. */
  lemma {:induction false} SumSecondsNonNegative(locations: seq<Location>)
    requires forall i :: 0 <= i < |locations| ==> Ordered(locations[i])
    ensures SumSeconds(locations) >= 0
  {
    if |locations| > 0 {
      DurationIsDistance(locations[0]);
      SumSecondsNonNegative(locations[1..]);
    }
  }

  /** `calculate_total_hours`: the accumulator loop over the sessions, then the division by 3600. */
  method CalculateTotalHours(locations: seq<Location>) returns (hours: real)
    ensures hours == TotalHours(locations)
    ensures hours * 3600.0 == SumSeconds(locations) as real
  {
    var totalSeconds := 0;
    var i := 0;
    while i < |locations|
      invariant 0 <= i <= |locations|
      invariant totalSeconds == SumSeconds(locations[..i])
    {
      var location := locations[i];
      var duration := Sub(location.endAt, location.beginAt);
      SumSecondsConcat(locations[..i], [location]);
      assert locations[..i + 1] == locations[..i] + [location];
      assert SumSeconds([location]) == Duration(location);
      totalSeconds := totalSeconds + TotalSeconds(duration);
      i := i + 1;
    }
    assert locations[..i] == locations;
    hours := totalSeconds as real / 3600.0;
  }

  /** No sessions, no hours. */
  lemma TotalHoursEmpty()
    ensures TotalHours([]) == 0.0
  {
  }

  /** The total over two lists together is the sum of their totals. */
  lemma TotalHoursAdditive(a: seq<Location>, b: seq<Location>)
    ensures TotalHours(a + b) == TotalHours(a) + TotalHours(b)
  {
    SumSecondsConcat(a, b);
  }

  /** The total does not depend on the order of the sessions. */
  lemma TotalHoursOrderIndependent(a: seq<Location>, b: seq<Location>)
    requires multiset(a) == multiset(b)
    ensures TotalHours(a) == TotalHours(b)
  {
    SumSecondsPermutation(a, b);
  }

  /** When every session is ordered the total is not negative. */
  lemma TotalHoursNonNegative(locations: seq<Location>)
    requires forall i :: 0 <= i < |locations| ==> Ordered(locations[i])
    ensures TotalHours(locations) >= 0.0
  {
    SumSecondsNonNegative(locations);
  }

  /**
    Nothing is filtered: a session logged backwards (ending one hour
    before it began) still counts, and lowers the total by one hour.
   */
  lemma BackwardSessionCounts(locations: seq<Location>, day: int)
    ensures TotalHours(locations + [Location(DateTime(day, 7200), DateTime(day, 3600))]) == TotalHours(locations) - 1.0
  {
    var loc := Location(DateTime(day, 7200), DateTime(day, 3600));
    SumSecondsContribution(locations, loc, []);
    assert locations + [loc] + [] == locations + [loc];
    assert locations + [] == locations;
  }
}
