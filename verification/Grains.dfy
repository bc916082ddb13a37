// Grain arithmetic: the day, month or year a date falls in, and the boundary after it.

module Grains {

  import opened Calendar
  import opened Results

  datatype Grain = Daily | Monthly | Yearly

  datatype RangeError = InvertedRange

  function PeriodStart(grain: Grain, day: Date): Date {
    match grain
    case Daily => day
    case Monthly => RawDate(day.year, day.month, 1)
    case Yearly => RawDate(day.year, 1, 1)
  }

  predicate IsStart(grain: Grain, day: Date) {
    PeriodStart(grain, day) == day
  }

  /** The boundary after `day` is still a date. Python raises on the last period of year 9999. */
  predicate HasNext(grain: Grain, day: Date) {
    match grain
    case Daily => Ordinal(day) < MAX_ORDINAL
    case Monthly => day.year < MAX_YEAR || day.month < 12
    case Yearly => day.year < MAX_YEAR
  }

  function NextPeriodStart(grain: Grain, day: Date): Date
    requires HasNext(grain, day)
  {
    var start := PeriodStart(grain, day);
    match grain
    case Daily => OrdinalBounds(start); AddDays(start, 1)
    case Monthly => RawDate(start.year + start.month / 12, start.month % 12 + 1, 1)
    case Yearly => RawDate(start.year + 1, 1, 1)
  }

  /** The last day inside the period, inclusive. */
  function PeriodEnd(grain: Grain, day: Date): (r: Date)
    requires HasNext(grain, day)
    ensures Ordinal(r) == Ordinal(NextPeriodStart(grain, day)) - 1
  {
    NextIsAfter(grain, day);
    OrdinalBounds(day);
    OrdinalBounds(NextPeriodStart(grain, day));
    AddDays(NextPeriodStart(grain, day), -1)
  }

  lemma StartIsBefore(grain: Grain, day: Date)
    ensures Ordinal(PeriodStart(grain, day)) <= Ordinal(day)
  {
    OrdinalIsOrder(day, PeriodStart(grain, day));
  }

  lemma NextIsAfter(grain: Grain, day: Date)
    requires HasNext(grain, day)
    ensures Ordinal(day) < Ordinal(NextPeriodStart(grain, day))
  {
    if grain != Daily {
      OrdinalIsOrder(day, NextPeriodStart(grain, day));
    }
  }

  /** Two dates share a period exactly when the second lies between the first's half-open bounds. */
  lemma PeriodIsInterval(grain: Grain, day: Date, other: Date)
    ensures PeriodStart(grain, other) == PeriodStart(grain, day)
       <==> (&& Ordinal(PeriodStart(grain, day)) <= Ordinal(other)
             && (HasNext(grain, day) ==> Ordinal(other) < Ordinal(NextPeriodStart(grain, day))))
  {
    var start := PeriodStart(grain, day);
    OrdinalIsOrder(other, start);
    OrdinalBounds(other);
    match grain
    case Daily =>
    case Monthly =>
      if HasNext(grain, day) {
        OrdinalIsOrder(other, NextPeriodStart(grain, day));
      }
    case Yearly =>
      if HasNext(grain, day) {
        OrdinalIsOrder(other, NextPeriodStart(grain, day));
      }
  }

  /** The last period of the calendar is the only one without a boundary after it. */
  lemma HasNextUnlessLast(grain: Grain, day: Date)
    ensures HasNext(grain, day)
       <==> PeriodStart(grain, day) != PeriodStart(grain, RawDate(MAX_YEAR, 12, 31))
  {
    var last := RawDate(MAX_YEAR, 12, 31);
    assert Ordinal(last) == MAX_ORDINAL by {
      YearHasTwelveMonths(MAX_YEAR);
      DaysBeforeYearClosedForm(MAX_YEAR + 1);
      assert DaysBeforeMonth(MAX_YEAR, 13) == DaysBeforeMonth(MAX_YEAR, 12) + 31;
    }
    OrdinalIsOrder(day, last);
    OrdinalBounds(day);
  }

  lemma StartsAreStarts(grain: Grain, day: Date)
    ensures IsStart(grain, PeriodStart(grain, day))
    ensures HasNext(grain, day) <==> HasNext(grain, PeriodStart(grain, day))
    ensures HasNext(grain, day) ==>
      && IsStart(grain, NextPeriodStart(grain, day))
      && NextPeriodStart(grain, PeriodStart(grain, day)) == NextPeriodStart(grain, day)
  {
  }

  lemma PeriodStartIsMonotone(grain: Grain, a: Date, b: Date)
    requires Ordinal(a) <= Ordinal(b)
    ensures Ordinal(PeriodStart(grain, a)) <= Ordinal(PeriodStart(grain, b))
  {
    OrdinalIsOrder(b, a);
    OrdinalIsOrder(PeriodStart(grain, b), PeriodStart(grain, a));
  }

  /** `NextPeriodStart` is the least period start after the date. */
  lemma NextIsLeastStart(grain: Grain, day: Date, start: Date)
    requires HasNext(grain, day)
    ensures IsStart(grain, NextPeriodStart(grain, day))
    ensures Ordinal(day) < Ordinal(NextPeriodStart(grain, day))
    ensures IsStart(grain, start) && Ordinal(day) < Ordinal(start)
        ==> Ordinal(NextPeriodStart(grain, day)) <= Ordinal(start)
  {
    NextIsAfter(grain, day);
    StartsAreStarts(grain, day);
    if IsStart(grain, start) && Ordinal(day) < Ordinal(start) {
      StartIsBefore(grain, day);
      PeriodIsInterval(grain, day, start);
    }
  }

  /** Every UTC instant lies between the half-open bounds of one period: that of its own day. */
  lemma InstantHasOnePeriod(grain: Grain, start: Date, t: Instant)
    requires IsStart(grain, start) && HasNext(grain, start) && InCalendar(t)
    ensures DayStart(start) <= t < DayStart(NextPeriodStart(grain, start))
       <==> PeriodStart(grain, DayOf(t)) == start
  {
    PeriodIsInterval(grain, start, DayOf(t));
  }

  /** Distinct periods of one table share no day. */
  lemma PeriodsAreDisjoint(grain: Grain, a: Date, b: Date)
    requires IsStart(grain, a) && IsStart(grain, b) && HasNext(grain, a) && HasNext(grain, b)
    ensures a == b
         || Ordinal(NextPeriodStart(grain, a)) <= Ordinal(b)
         || Ordinal(NextPeriodStart(grain, b)) <= Ordinal(a)
  {
    OrdinalIsOrder(a, b);
    NextIsLeastStart(grain, a, b);
    NextIsLeastStart(grain, b, a);
  }

  // ---------------------------------------------------------------- periods_covering

  predicate Ascending(s: seq<Date>) {
    forall i, j | 0 <= i < j < |s| :: Ordinal(s[i]) < Ordinal(s[j])
  }

  ghost predicate Within(first: Date, day: Date, last: Date) {
    Ordinal(first) <= Ordinal(day) <= Ordinal(last)
  }

  /** Some day of the range falls in the period that starts at `start`. */
  ghost predicate Intersects(grain: Grain, start: Date, first: Date, last: Date) {
    exists day: Date :: PeriodStart(grain, day) == start && Within(first, day, last)
  }

  /** The period at `i` starts where the one before it ends. */
  ghost predicate Joins(grain: Grain, s: seq<Date>, i: int)
    requires 0 < i < |s|
  {
    HasNext(grain, s[i - 1]) && NextPeriodStart(grain, s[i - 1]) == s[i]
  }

  ghost predicate Adjacent(grain: Grain, s: seq<Date>) {
    forall i | 0 < i < |s| :: Joins(grain, s, i)
  }

  lemma IntersectsIffBetween(grain: Grain, start: Date, first: Date, last: Date)
    requires Ordinal(first) <= Ordinal(last)
    ensures Intersects(grain, start, first, last)
       <==> IsStart(grain, start)
            && Ordinal(PeriodStart(grain, first)) <= Ordinal(start) <= Ordinal(PeriodStart(grain, last))
  {
    if Intersects(grain, start, first, last) {
      var day: Date :| PeriodStart(grain, day) == start && Within(first, day, last);
      PeriodStartIsMonotone(grain, first, day);
      PeriodStartIsMonotone(grain, day, last);
    }
    if IsStart(grain, start)
      && Ordinal(PeriodStart(grain, first)) <= Ordinal(start) <= Ordinal(PeriodStart(grain, last))
    {
      StartIsBefore(grain, last);
      if Ordinal(start) < Ordinal(first) {
        NextOrNothing(grain, first, start);
        PeriodIsInterval(grain, first, start);
        assert PeriodStart(grain, first) == start && Within(first, first, last);
      } else {
        assert PeriodStart(grain, start) == start && Within(first, start, last);
      }
    }
  }

  lemma NextOrNothing(grain: Grain, day: Date, earlier: Date)
    requires Ordinal(earlier) <= Ordinal(day)
    ensures HasNext(grain, day) ==> Ordinal(earlier) < Ordinal(NextPeriodStart(grain, day))
  {
    if HasNext(grain, day) {
      NextIsAfter(grain, day);
    }
  }

  /** `out` lists, in order, exactly the starts in `[lo, cur)`, and the last one ends at `cur`. */
  ghost predicate CoveredUpTo(grain: Grain, out: seq<Date>, lo: Date, cur: Date) {
    && Ascending(out)
    && Adjacent(grain, out)
    && (forall start: Date ::
          start in out <==> IsStart(grain, start) && Ordinal(lo) <= Ordinal(start) < Ordinal(cur))
    && (out != [] ==> HasNext(grain, out[|out| - 1]) && NextPeriodStart(grain, out[|out| - 1]) == cur)
  }

  lemma AdjacentAppend(grain: Grain, out: seq<Date>, cur: Date)
    requires Adjacent(grain, out)
    requires out != [] ==> HasNext(grain, out[|out| - 1]) && NextPeriodStart(grain, out[|out| - 1]) == cur
    ensures Adjacent(grain, out + [cur])
  {
    forall i | 0 < i < |out + [cur]| ensures Joins(grain, out + [cur], i) {
      if i < |out| {
        assert Joins(grain, out, i);
      }
    }
  }

  lemma AscendingAppend(out: seq<Date>, cur: Date)
    requires Ascending(out) && forall day | day in out :: Ordinal(day) < Ordinal(cur)
    ensures Ascending(out + [cur])
  {
    forall i, j | 0 <= i < j < |out + [cur]| ensures Ordinal((out + [cur])[i]) < Ordinal((out + [cur])[j]) {
      assert (out + [cur])[i] == out[i] && out[i] in out;
    }
  }

  /** Between a start and the next one there is no other. */
  lemma OneMoreStart(grain: Grain, cur: Date, start: Date)
    requires IsStart(grain, cur) && HasNext(grain, cur)
    ensures IsStart(grain, start) && Ordinal(start) < Ordinal(NextPeriodStart(grain, cur))
       <==> IsStart(grain, start) && (Ordinal(start) < Ordinal(cur) || start == cur)
  {
    OrdinalIsOrder(start, cur);
    NextIsAfter(grain, cur);
    NextIsLeastStart(grain, cur, start);
  }

  lemma CoverOneMore(grain: Grain, out: seq<Date>, lo: Date, cur: Date)
    requires CoveredUpTo(grain, out, lo, cur)
    requires IsStart(grain, cur) && HasNext(grain, cur) && Ordinal(lo) <= Ordinal(cur)
    ensures CoveredUpTo(grain, out + [cur], lo, NextPeriodStart(grain, cur))
  {
    AscendingAppend(out, cur);
    AdjacentAppend(grain, out, cur);
    forall start: Date
      ensures start in out + [cur] <==>
        IsStart(grain, start) && Ordinal(lo) <= Ordinal(start) < Ordinal(NextPeriodStart(grain, cur))
    {
      OneMoreStart(grain, cur, start);
      assert start in out + [cur] <==> start in out || start == cur;
    }
  }

  /** Every period start whose period meets `[first, last]`, in order, each ending where the next begins. */
  method PeriodsCovering(grain: Grain, first: Date, last: Date) returns (r: Result<seq<Date>, RangeError>)
    requires Ordinal(first) <= Ordinal(last) ==> HasNext(grain, last)
    ensures Ordinal(last) < Ordinal(first) <==> r == Err(InvertedRange)
    ensures r.Ok? ==>
      && Ascending(r.value)
      && Adjacent(grain, r.value)
      && (forall start: Date :: start in r.value <==> Intersects(grain, start, first, last))
  {
    if Ordinal(last) < Ordinal(first) {
      return Err(InvertedRange);
    }
    var out: seq<Date> := [];
    var cur, stop := PeriodStart(grain, first), PeriodStart(grain, last);
    PeriodStartIsMonotone(grain, first, last);
    StartsAreStarts(grain, first);
    StartsAreStarts(grain, last);
    while Ordinal(cur) <= Ordinal(stop)
      invariant IsStart(grain, cur)
      invariant Ordinal(PeriodStart(grain, first)) <= Ordinal(cur)
      invariant CoveredUpTo(grain, out, PeriodStart(grain, first), cur)
      invariant out != [] ==> Ordinal(out[|out| - 1]) <= Ordinal(stop)
      invariant out == [] ==> cur == PeriodStart(grain, first)
      decreases MAX_ORDINAL - Ordinal(cur)
    {
      EarlierHasNext(grain, cur, stop);
      CoverOneMore(grain, out, PeriodStart(grain, first), cur);
      NextIsAfter(grain, cur);
      OrdinalBounds(NextPeriodStart(grain, cur));
      StartsAreStarts(grain, cur);
      out := out + [cur];
      cur := NextPeriodStart(grain, cur);
    }
    CoversTheRange(grain, out, first, last, cur);
    r := Ok(out);
  }

  lemma CoversTheRange(grain: Grain, out: seq<Date>, first: Date, last: Date, cur: Date)
    requires Ordinal(first) <= Ordinal(last)
    requires CoveredUpTo(grain, out, PeriodStart(grain, first), cur)
    requires Ordinal(cur) > Ordinal(PeriodStart(grain, last))
    requires out != [] && Ordinal(out[|out| - 1]) <= Ordinal(PeriodStart(grain, last))
    ensures forall start: Date :: start in out <==> Intersects(grain, start, first, last)
  {
    forall start: Date ensures start in out <==> Intersects(grain, start, first, last) {
      IntersectsIffBetween(grain, start, first, last);
      if start in out {
        var i :| 0 <= i < |out| && out[i] == start;
        assert Ordinal(start) <= Ordinal(out[|out| - 1]);
      }
    }
  }

  lemma EarlierHasNext(grain: Grain, day: Date, later: Date)
    requires IsStart(grain, day) && Ordinal(day) <= Ordinal(later) && HasNext(grain, later)
    ensures HasNext(grain, day)
  {
    OrdinalIsOrder(day, later);
    OrdinalIsOrder(later, day);
  }
}
