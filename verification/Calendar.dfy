// The proleptic Gregorian calendar as Python's `date` has it: years 1 to 9999, and day ordinals
// counted from 1 January of year 1. The leap-year rule is the one of Appendix C of RFC 3339.

module Calendar {

  const MIN_YEAR := 1
  const MAX_YEAR := 9999
  const MAX_ORDINAL := 3652059

  predicate IsLeap(year: int) {
    year % 4 == 0 && (year % 100 != 0 || year % 400 == 0)
  }

  function DaysInMonth(year: int, month: int): int
    requires 1 <= month <= 12
  {
    if month == 2 then (if IsLeap(year) then 29 else 28)
    else if month in {4, 6, 9, 11} then 30
    else 31
  }

  datatype RawDate = RawDate(year: int, month: int, day: int)

  predicate IsDate(d: RawDate) {
    && MIN_YEAR <= d.year <= MAX_YEAR
    && 1 <= d.month <= 12
    && 1 <= d.day <= DaysInMonth(d.year, d.month)
  }

  type Date = d: RawDate | IsDate(d) witness RawDate(1, 1, 1)

  function DaysInYear(year: int): int {
    if IsLeap(year) then 366 else 365
  }

  /** Days in all the years before `year`. */
  function DaysBeforeYear(year: int): int
    requires MIN_YEAR <= year <= MAX_YEAR + 1
    decreases year
  {
    if year == MIN_YEAR then 0 else DaysBeforeYear(year - 1) + DaysInYear(year - 1)
  }

  /** Days in the months of `year` before `month`; month 13 stands for the end of the year. */
  function DaysBeforeMonth(year: int, month: int): int
    requires 1 <= month <= 13
    decreases month
  {
    if month == 1 then 0 else DaysBeforeMonth(year, month - 1) + DaysInMonth(year, month - 1)
  }

  function Ordinal(d: Date): int {
    DaysBeforeYear(d.year) + DaysBeforeMonth(d.year, d.month) + d.day
  }

  // ---------------------------------------------------------------- years and months as day spans

  lemma DivStep(p: int, k: int)
    requires k in {4, 100, 400}
    ensures (p + 1) / k == p / k + (if (p + 1) % k == 0 then 1 else 0)
  {
    if k == 4 {
      assert (p + 1) / 4 == p / 4 + (if (p + 1) % 4 == 0 then 1 else 0);
    } else if k == 100 {
      assert (p + 1) / 100 == p / 100 + (if (p + 1) % 100 == 0 then 1 else 0);
    } else {
      assert (p + 1) / 400 == p / 400 + (if (p + 1) % 400 == 0 then 1 else 0);
    }
  }

  lemma LeapParts(year: int)
    ensures year % 400 == 0 ==> year % 100 == 0
    ensures year % 100 == 0 ==> year % 4 == 0
  {
  }

  /** Counting years one by one agrees with the closed form of the Gregorian rule. */
  lemma {:induction false} DaysBeforeYearClosedForm(year: int)
    requires MIN_YEAR <= year <= MAX_YEAR + 1
    ensures var p := year - 1; DaysBeforeYear(year) == 365 * p + p / 4 - p / 100 + p / 400
    decreases year
  {
    if year > MIN_YEAR {
      DaysBeforeYearClosedForm(year - 1);
      DivStep(year - 2, 4);
      DivStep(year - 2, 100);
      DivStep(year - 2, 400);
      LeapParts(year - 1);
    }
  }

  /** Adding month lengths one by one agrees with the closed form of the Gregorian rule. */
  lemma DaysBeforeMonthClosedForm(year: int, month: int)
    requires 1 <= month <= 13
    ensures DaysBeforeMonth(year, month)
         == (367 * month - 362) / 12 - (if month <= 2 then 0 else if DaysInYear(year) == 366 then 1 else 2)
  {
    assert DaysBeforeMonth(year, 3) == 31 + DaysInMonth(year, 2);
    assert DaysBeforeMonth(year, 5) == DaysBeforeMonth(year, 3) + 61;
    assert DaysBeforeMonth(year, 7) == DaysBeforeMonth(year, 5) + 61;
    assert DaysBeforeMonth(year, 9) == DaysBeforeMonth(year, 7) + 62;
    assert DaysBeforeMonth(year, 11) == DaysBeforeMonth(year, 9) + 61;
    assert DaysBeforeMonth(year, 13) == DaysBeforeMonth(year, 11) + 61;
  }

  lemma YearHasTwelveMonths(year: int)
    ensures DaysBeforeMonth(year, 13) == DaysInYear(year)
  {
    assert DaysBeforeMonth(year, 4) == DaysInMonth(year, 1) + DaysInMonth(year, 2) + DaysInMonth(year, 3);
    assert DaysBeforeMonth(year, 7) == DaysBeforeMonth(year, 4) + 91;
    assert DaysBeforeMonth(year, 10) == DaysBeforeMonth(year, 7) + 92;
    assert DaysBeforeMonth(year, 13) == DaysBeforeMonth(year, 10) + 92;
  }

  lemma {:induction false} YearsAscend(a: int, b: int)
    requires MIN_YEAR <= a <= b <= MAX_YEAR + 1
    ensures DaysBeforeYear(b) >= DaysBeforeYear(a) + 365 * (b - a)
    decreases b - a
  {
    if a < b {
      YearsAscend(a, b - 1);
    }
  }

  lemma {:induction false} MonthsAscend(year: int, a: int, b: int)
    requires 1 <= a <= b <= 13
    ensures DaysBeforeMonth(year, b) >= DaysBeforeMonth(year, a) + 28 * (b - a)
    decreases b
  {
    if a < b {
      MonthsAscend(year, a, b - 1);
    }
  }

  /** A date lies inside its year and inside its month. */
  lemma OrdinalBounds(d: Date)
    ensures DaysBeforeYear(d.year) < Ordinal(d) <= DaysBeforeYear(d.year + 1)
    ensures DaysBeforeMonth(d.year, d.month) < Ordinal(d) - DaysBeforeYear(d.year)
         <= DaysBeforeMonth(d.year, d.month + 1)
    ensures 1 <= Ordinal(d) <= MAX_ORDINAL
  {
    MonthsAscend(d.year, 1, d.month);
    MonthsAscend(d.year, d.month + 1, 13);
    YearHasTwelveMonths(d.year);
    YearsAscend(MIN_YEAR, d.year);
    YearsAscend(d.year + 1, MAX_YEAR + 1);
    DaysBeforeYearClosedForm(MAX_YEAR + 1);
  }

  // ---------------------------------------------------------------- order

  predicate Before(a: Date, b: Date) {
    || a.year < b.year
    || (a.year == b.year && a.month < b.month)
    || (a.year == b.year && a.month == b.month && a.day < b.day)
  }

  /** Comparing dates field by field is comparing their ordinals. */
  lemma OrdinalIsOrder(a: Date, b: Date)
    ensures Before(a, b) <==> Ordinal(a) < Ordinal(b)
    ensures a == b <==> Ordinal(a) == Ordinal(b)
  {
    if Before(a, b) {
      BeforeIsSmaller(a, b);
    } else if Before(b, a) {
      BeforeIsSmaller(b, a);
    }
  }

  lemma BeforeIsSmaller(a: Date, b: Date)
    requires Before(a, b)
    ensures Ordinal(a) < Ordinal(b)
  {
    OrdinalBounds(a);
    OrdinalBounds(b);
    if a.year < b.year {
      EarlierYear(a, b);
    } else if a.month < b.month {
      MonthsAscend(a.year, a.month + 1, b.month);
    }
  }

  lemma EarlierYear(a: Date, b: Date)
    requires a.year < b.year
    ensures Ordinal(a) < Ordinal(b)
  {
    OrdinalBounds(a);
    OrdinalBounds(b);
    YearsAscend(a.year + 1, b.year);
  }

  // ---------------------------------------------------------------- ordinals back to dates

  function YearAt(year: int, n: int): (r: int)
    requires MIN_YEAR <= year <= MAX_YEAR
    requires DaysBeforeYear(year) < n <= MAX_ORDINAL
    ensures year <= r <= MAX_YEAR
    ensures DaysBeforeYear(r) < n <= DaysBeforeYear(r + 1)
    decreases MAX_YEAR - year
  {
    if n <= DaysBeforeYear(year + 1) then year
    else
      DaysBeforeYearClosedForm(MAX_YEAR + 1);
      YearAt(year + 1, n)
  }

  function MonthAt(year: int, month: int, k: int): (r: int)
    requires 1 <= month <= 12
    requires DaysBeforeMonth(year, month) < k <= DaysBeforeMonth(year, 13)
    ensures month <= r <= 12
    ensures DaysBeforeMonth(year, r) < k <= DaysBeforeMonth(year, r + 1)
    decreases 12 - month
  {
    if k <= DaysBeforeMonth(year, month + 1) then month else MonthAt(year, month + 1, k)
  }

  function FromOrdinal(n: int): (d: Date)
    requires 1 <= n <= MAX_ORDINAL
    ensures Ordinal(d) == n
  {
    var year := YearAt(MIN_YEAR, n);
    var k := n - DaysBeforeYear(year);
    YearHasTwelveMonths(year);
    var month := MonthAt(year, 1, k);
    RawDate(year, month, k - DaysBeforeMonth(year, month))
  }

  /** Ordinals and dates are in bijection; FromOrdinal's contract is the other half. */
  lemma FromOrdinalOfOrdinal(d: Date)
    ensures 1 <= Ordinal(d) <= MAX_ORDINAL
    ensures FromOrdinal(Ordinal(d)) == d
  {
    OrdinalBounds(d);
    OrdinalIsOrder(FromOrdinal(Ordinal(d)), d);
  }

  // ---------------------------------------------------------------- day arithmetic

  /** `d + timedelta(days=k)` does not overflow `date`. */
  predicate CanAddDays(d: Date, k: int) {
    1 <= Ordinal(d) + k <= MAX_ORDINAL
  }

  function AddDays(d: Date, k: int): (r: Date)
    requires CanAddDays(d, k)
    ensures Ordinal(r) == Ordinal(d) + k
  {
    FromOrdinal(Ordinal(d) + k)
  }

  /** Instants count microseconds in UTC; day n starts at n * DAY. */
  type Instant = int
  const DAY: int := 86_400_000_000

  /** Midnight UTC at the start of `d`. */
  function DayStart(d: Date): Instant {
    Ordinal(d) * DAY
  }

  predicate InCalendar(t: Instant) {
    DAY <= t < (MAX_ORDINAL + 1) * DAY
  }

  /** The UTC day an instant falls on. */
  function DayOf(t: Instant): (d: Date)
    requires InCalendar(t)
    ensures DayStart(d) <= t < DayStart(d) + DAY
  {
    FromOrdinal(t / DAY)
  }

  lemma DayOfIsUnique(t: Instant, d: Date)
    requires InCalendar(t)
    ensures DayOf(t) == d <==> DayStart(d) <= t < DayStart(d) + DAY
  {
    if DayStart(d) <= t < DayStart(d) + DAY {
      OrdinalIsOrder(d, DayOf(t));
    }
  }
}
