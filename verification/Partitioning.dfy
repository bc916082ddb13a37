// Which days a build or a worker must cover, which partitions are past retention, and the method
// that provisions what is missing.

module Partitioning {

  import opened Calendar
  import opened Grains
  import opened Results
  import opened Sorting

  datatype SpanError = Inverted | SpanTooWide

  // ---------------------------------------------------------------- day ranges

  function DaysFrom(first: Date, count: nat): (r: seq<Date>)
    requires count > 0 ==> CanAddDays(first, count - 1)
    ensures |r| == count
    ensures forall i | 0 <= i < count :: Ordinal(r[i]) == Ordinal(first) + i
  {
    OrdinalBounds(first);
    seq(count, i requires 0 <= i < count => AddDays(first, i))
  }

  /** Every day in `[first, last]`; an inverted range is refused. */
  function DaysBetween(first: Date, last: Date): Result<seq<Date>, SpanError> {
    OrdinalBounds(last);
    if Ordinal(last) < Ordinal(first) then Err(Inverted)
    else Ok(DaysFrom(first, Ordinal(last) - Ordinal(first) + 1))
  }

  lemma DaysBetweenIsTheRange(first: Date, last: Date)
    ensures DaysBetween(first, last).Ok? <==> Ordinal(first) <= Ordinal(last)
    ensures DaysBetween(first, last).Ok? ==>
      && Ascending(DaysBetween(first, last).value)
      && (forall day: Date :: day in DaysBetween(first, last).value <==> Within(first, day, last))
  {
    if Ordinal(first) <= Ordinal(last) {
      var days := DaysBetween(first, last).value;
      forall day: Date ensures day in days <==> Within(first, day, last) {
        if Within(first, day, last) {
          OrdinalIsOrder(day, days[Ordinal(day) - Ordinal(first)]);
        }
      }
    }
  }

  /** Today plus `ahead` more days. */
  function CoverageDays(today: Date, ahead: int): Result<seq<Date>, SpanError>
    requires CanAddDays(today, ahead)
  {
    DaysBetween(today, AddDays(today, ahead))
  }

  /** The runway is today and the next `ahead` days, no other, in order; a negative one is refused. */
  lemma CoverageDaysAreExact(today: Date, ahead: int, day: Date)
    requires CanAddDays(today, ahead)
    ensures CoverageDays(today, ahead).Err? <==> ahead < 0
    ensures ahead >= 0 ==>
      && CoverageDays(today, ahead).Ok? && |CoverageDays(today, ahead).value| == ahead + 1
      && Ascending(CoverageDays(today, ahead).value)
      && (day in CoverageDays(today, ahead).value <==> Ordinal(today) <= Ordinal(day) <= Ordinal(today) + ahead)
  {
    DaysBetweenIsTheRange(today, AddDays(today, ahead));
  }

  function Earlier(a: Date, b: Date): Date { if Ordinal(b) < Ordinal(a) then b else a }
  function Later(a: Date, b: Date): Date { if Ordinal(b) > Ordinal(a) then b else a }

  const MAX_MIGRATION_SPAN_DAYS := 3650

  function MigrationFirst(lo: Option<Date>, today: Date): Date {
    if lo.Some? then Earlier(lo.value, today) else today
  }

  function MigrationLast(hi: Option<Date>, today: Date, ahead: int): Date
    requires CanAddDays(today, ahead)
  {
    if hi.Some? then Later(hi.value, AddDays(today, ahead)) else AddDays(today, ahead)
  }

  function MigrationDays(lo: Option<Date>, hi: Option<Date>, today: Date, ahead: int, maxSpan: int)
    : Result<seq<Date>, SpanError>
    requires CanAddDays(today, ahead)
  {
    var first := MigrationFirst(lo, today);
    var last := MigrationLast(hi, today, ahead);
    if Ordinal(last) - Ordinal(first) + 1 > maxSpan then Err(SpanTooWide) else DaysBetween(first, last)
  }

  /** A build that is not refused covers the data's own span and the runway; it is refused exactly
      when the widened span passes the bound (or, with a negative runway and no later data, is inverted). */
  lemma MigrationCoversDataAndRunway(lo: Option<Date>, hi: Option<Date>, today: Date, ahead: int, maxSpan: int, day: Date)
    requires CanAddDays(today, ahead)
    ensures var r := MigrationDays(lo, hi, today, ahead, maxSpan);
      && (r.Ok? && Within(today, day, AddDays(today, ahead)) ==> day in r.value)
      && (r.Ok? && lo.Some? && hi.Some? && Within(lo.value, day, hi.value) ==> day in r.value)
      && (r.Ok? ==> |r.value| <= maxSpan && Ascending(r.value))
      && (r.Ok? && day in r.value ==>
            || Within(today, day, AddDays(today, ahead))
            || (lo.Some? && Ordinal(lo.value) <= Ordinal(day) < Ordinal(today))
            || (hi.Some? && Ordinal(AddDays(today, ahead)) < Ordinal(day) <= Ordinal(hi.value)))
      && (r.Err? <==>
            var span := Ordinal(MigrationLast(hi, today, ahead)) - Ordinal(MigrationFirst(lo, today)) + 1;
            span > maxSpan || span <= 0)
  {
    DaysBetweenIsTheRange(MigrationFirst(lo, today), MigrationLast(hi, today, ahead));
  }

  // ---------------------------------------------------------------- retention

  function ByDay(): (Date, Date) -> bool {
    (a: Date, b: Date) => Ordinal(a) <= Ordinal(b)
  }

  function PastCutoff(grain: Grain, cutoff: Date): Date -> bool {
    (s: Date) => HasNext(grain, s) && Ordinal(PeriodEnd(grain, s)) < Ordinal(cutoff)
  }

  /** The partition starts past retention, oldest first, judged by each period's last day. */
  function ExpiredDays(covered: seq<Date>, today: Date, retention: int, grain: Grain): seq<Date>
    requires CanAddDays(today, -retention)
    requires forall s | s in covered :: HasNext(grain, s)
  {
    StableSort(ByDay(), Filter(PastCutoff(grain, AddDays(today, -retention)), covered))
  }

  ghost predicate EveryDayBefore(grain: Grain, s: Date, ordinal: int) {
    forall day: Date | PeriodStart(grain, day) == PeriodStart(grain, s) :: Ordinal(day) < ordinal
  }

  lemma PastCutoffIsEveryDay(grain: Grain, s: Date, cutoff: Date)
    requires HasNext(grain, s)
    ensures PastCutoff(grain, cutoff)(s) <==> EveryDayBefore(grain, s, Ordinal(cutoff))
  {
    var end := PeriodEnd(grain, s);
    NextIsAfter(grain, s);
    StartIsBefore(grain, s);
    PeriodIsInterval(grain, s, end);
    forall day: Date | PeriodStart(grain, day) == PeriodStart(grain, s)
      ensures Ordinal(day) <= Ordinal(end)
    {
      PeriodIsInterval(grain, s, day);
    }
  }

  /** Exactly the covered periods whose every day is strictly before the cutoff, in calendar order,
      each as often as it was listed. */
  lemma ExpiredDaysIsExact(covered: seq<Date>, today: Date, retention: int, grain: Grain)
    requires CanAddDays(today, -retention)
    requires forall s | s in covered :: HasNext(grain, s)
    ensures forall i, j | 0 <= i < j < |ExpiredDays(covered, today, retention, grain)| ::
      Ordinal(ExpiredDays(covered, today, retention, grain)[i]) <= Ordinal(ExpiredDays(covered, today, retention, grain)[j])
    ensures forall s: Date ::
      (s in ExpiredDays(covered, today, retention, grain) <==>
         s in covered && EveryDayBefore(grain, s, Ordinal(today) - retention))
    ensures forall s: Date ::
      Count(ExpiredDays(covered, today, retention, grain), s)
      == if s in ExpiredDays(covered, today, retention, grain) then Count(covered, s) else 0
  {
    var cutoff := AddDays(today, -retention);
    var p := PastCutoff(grain, cutoff);
    var r := ExpiredDays(covered, today, retention, grain);
    StableSortSorts(ByDay(), Filter(p, covered));
    FilterMembers(p, covered);
    forall s: Date
      ensures s in r <==> s in covered && EveryDayBefore(grain, s, Ordinal(today) - retention)
      ensures Count(r, s) == if s in r then Count(covered, s) else 0
    {
      FilterCounts(p, covered, s);
      if s in covered {
        PastCutoffIsEveryDay(grain, s, cutoff);
      }
    }
  }

  /** A day still inside retention never loses its partition, at any grain. */
  lemma InPolicyDaysAreKept(covered: seq<Date>, today: Date, retention: int, grain: Grain, day: Date)
    requires CanAddDays(today, -retention)
    requires forall s | s in covered :: HasNext(grain, s)
    requires Ordinal(day) >= Ordinal(today) - retention
    ensures PeriodStart(grain, day) !in ExpiredDays(covered, today, retention, grain)
  {
    ExpiredDaysIsExact(covered, today, retention, grain);
    StartsAreStarts(grain, day);
  }

  /** Nothing the runway asks for can be dropped the same day. */
  lemma CoverageIsNeverExpired(covered: seq<Date>, today: Date, retention: int, grain: Grain, ahead: int, day: Date)
    requires CanAddDays(today, -retention) && CanAddDays(today, ahead)
    requires forall s | s in covered :: HasNext(grain, s)
    requires retention >= 0
    requires CoverageDays(today, ahead).Ok? && day in CoverageDays(today, ahead).value
    ensures PeriodStart(grain, day) !in ExpiredDays(covered, today, retention, grain)
  {
    DaysBetweenIsTheRange(today, AddDays(today, ahead));
    InPolicyDaysAreKept(covered, today, retention, grain, day);
  }

  /** As today advances, what was expired stays expired. */
  lemma ExpiryOnlyGrows(covered: seq<Date>, today: Date, later: Date, retention: int, grain: Grain, s: Date)
    requires CanAddDays(today, -retention) && CanAddDays(later, -retention)
    requires forall s | s in covered :: HasNext(grain, s)
    requires Ordinal(today) <= Ordinal(later)
    requires s in ExpiredDays(covered, today, retention, grain)
    ensures s in ExpiredDays(covered, later, retention, grain)
  {
    ExpiredDaysIsExact(covered, today, retention, grain);
    ExpiredDaysIsExact(covered, later, retention, grain);
  }
}
