// Timestamps to the millisecond as fixed-width text, such as `2026-06-14T10:00:00.000` (the date and
// time of section 5.6 of RFC 3339) and the log's `2026-06-14 10:00:00,000`.

module Timestamps {

  import opened Calendar
  import opened DateText
  import opened Results
  import opened Text

  const MILLI: int := 1000
  const MILLIS_PER_DAY: int := 86_400_000

  // ---------------------------------------------------------------- the clock

  function ClockText(k: nat, frac: char): string
    requires k < MILLIS_PER_DAY
  {
    Widths();
    Pad(k / 3_600_000, 2) + (":" + (Pad(k / 60_000 % 60, 2) + (":" + (Pad(k / 1000 % 60, 2) + ([frac] + Pad(k % 1000, 3))))))
  }

  predicate ClockShape(s: string, frac: char) {
    && |s| == 12
    && AllDigits(s[..2]) && s[2] == ':'
    && AllDigits(s[3..5]) && s[5] == ':'
    && AllDigits(s[6..8]) && s[8] == frac
    && AllDigits(s[9..])
  }

  /** Milliseconds since midnight; hours, minutes or seconds out of range are refused. */
  function ReadClock(s: string, frac: char): (r: Option<nat>)
    requires ClockShape(s, frac)
    ensures r.Some? ==> r.value < MILLIS_PER_DAY
  {
    PadOfValue(s[9..]);
    Widths();
    var h, m, sec := Value(s[..2]), Value(s[3..5]), Value(s[6..8]);
    if h < 24 && m < 60 && sec < 60 then Some(((h * 60 + m) * 60 + sec) * 1000 + Value(s[9..])) else None
  }

  lemma ClockParts(h: nat, m: nat, sec: nat, ms: nat)
    requires h < 24 && m < 60 && sec < 60 && ms < 1000
    ensures var k := ((h * 60 + m) * 60 + sec) * 1000 + ms;
      && k < MILLIS_PER_DAY
      && k / 3_600_000 == h && k / 60_000 % 60 == m && k / 1000 % 60 == sec && k % 1000 == ms
  {
    var k := ((h * 60 + m) * 60 + sec) * 1000 + ms;
    assert k / 1000 == (h * 60 + m) * 60 + sec;
    assert k / 60_000 == h * 60 + m;
  }

  lemma ClockWhole(k: nat)
    requires k < MILLIS_PER_DAY
    ensures k / 3_600_000 < 24
    ensures ((k / 3_600_000 * 60 + k / 60_000 % 60) * 60 + k / 1000 % 60) * 1000 + k % 1000 == k
  {
    assert k / 60_000 / 60 == k / 3_600_000;
    assert k / 1000 / 60 == k / 60_000;
  }

  /** Four fields of those widths, put together, are found where `ClockShape` looks for them. */
  lemma ClockFieldsAreFound(h: string, m: string, sec: string, ms: string, frac: char, s: string)
    requires |h| == 2 && |m| == 2 && |sec| == 2 && |ms| == 3
    requires s == h + (":" + (m + (":" + (sec + ([frac] + ms)))))
    ensures |s| == 12 && s[2] == ':' && s[5] == ':' && s[8] == frac
    ensures s[..2] == h && s[3..5] == m && s[6..8] == sec && s[9..] == ms
  {
    assert s[3..] == m + (":" + (sec + ([frac] + ms)));
    assert s[6..] == sec + ([frac] + ms);
  }

  lemma ClockTextFields(k: nat, frac: char)
    requires k < MILLIS_PER_DAY
    ensures ClockShape(ClockText(k, frac), frac)
    ensures Value(ClockText(k, frac)[..2]) == k / 3_600_000
    ensures Value(ClockText(k, frac)[3..5]) == k / 60_000 % 60
    ensures Value(ClockText(k, frac)[6..8]) == k / 1000 % 60
    ensures Value(ClockText(k, frac)[9..]) == k % 1000
  {
    Widths();
    ValueOfPad(k / 3_600_000, 2);
    ValueOfPad(k / 60_000 % 60, 2);
    ValueOfPad(k / 1000 % 60, 2);
    ValueOfPad(k % 1000, 3);
    ClockFieldsAreFound(Pad(k / 3_600_000, 2), Pad(k / 60_000 % 60, 2), Pad(k / 1000 % 60, 2), Pad(k % 1000, 3), frac,
                        ClockText(k, frac));
  }

  lemma ReadClockFrom(s: string, frac: char, h: nat, m: nat, sec: nat, ms: nat)
    requires ClockShape(s, frac) && h < 24 && m < 60 && sec < 60
    requires Value(s[..2]) == h && Value(s[3..5]) == m && Value(s[6..8]) == sec && Value(s[9..]) == ms
    ensures ReadClock(s, frac) == Some(((h * 60 + m) * 60 + sec) * 1000 + ms)
  {
  }

  lemma ReadClockOfFields(s: string, frac: char, k: nat)
    requires ClockShape(s, frac) && k < MILLIS_PER_DAY
    requires Value(s[..2]) == k / 3_600_000 && Value(s[3..5]) == k / 60_000 % 60
    requires Value(s[6..8]) == k / 1000 % 60 && Value(s[9..]) == k % 1000
    ensures ReadClock(s, frac) == Some(k)
  {
    ClockWhole(k);
    ReadClockFrom(s, frac, k / 3_600_000, k / 60_000 % 60, k / 1000 % 60, k % 1000);
  }

  lemma ReadClockOfClockText(k: nat, frac: char)
    requires k < MILLIS_PER_DAY
    ensures ClockShape(ClockText(k, frac), frac)
    ensures ReadClock(ClockText(k, frac), frac) == Some(k)
  {
    ClockTextFields(k, frac);
    ReadClockOfFields(ClockText(k, frac), frac, k);
  }

  function FieldsText(h: nat, m: nat, s: nat, f: nat, frac: char): string
    requires h < 100 && m < 100 && s < 100 && f < 1000
  {
    Widths();
    Pad(h, 2) + (":" + (Pad(m, 2) + (":" + (Pad(s, 2) + ([frac] + Pad(f, 3))))))
  }

  lemma FieldsTextOfValues(s: string, frac: char)
    requires ClockShape(s, frac)
    ensures Value(s[..2]) < 100 && Value(s[3..5]) < 100 && Value(s[6..8]) < 100 && Value(s[9..]) < 1000
    ensures FieldsText(Value(s[..2]), Value(s[3..5]), Value(s[6..8]), Value(s[9..]), frac) == s
  {
    Widths();
    PadOfValue(s[..2]);
    PadOfValue(s[3..5]);
    PadOfValue(s[6..8]);
    PadOfValue(s[9..]);
    assert s == s[..2] + (":" + (s[3..5] + (":" + (s[6..8] + ([frac] + s[9..])))));
  }

  lemma ClockTextFrom(h: nat, m: nat, sec: nat, ms: nat, frac: char, k: nat)
    requires h < 24 && m < 60 && sec < 60 && ms < 1000
    requires k == ((h * 60 + m) * 60 + sec) * 1000 + ms
    ensures k < MILLIS_PER_DAY && ClockText(k, frac) == FieldsText(h, m, sec, ms, frac)
  {
    ClockParts(h, m, sec, ms);
  }

  lemma ClockTextOfReadClock(s: string, frac: char)
    requires ClockShape(s, frac) && ReadClock(s, frac).Some?
    ensures ClockText(ReadClock(s, frac).value, frac) == s
  {
    FieldsTextOfValues(s, frac);
    ClockTextFrom(Value(s[..2]), Value(s[3..5]), Value(s[6..8]), Value(s[9..]), frac, ReadClock(s, frac).value);
  }

  lemma ClockTextOrder(j: nat, k: nat, frac: char)
    requires j < MILLIS_PER_DAY && k < MILLIS_PER_DAY
    ensures LexLess(ClockText(j, frac), ClockText(k, frac)) <==> j < k
  {
    Widths();
    var h, m, s, f := j / 3_600_000, j / 60_000 % 60, j / 1000 % 60, j % 1000;
    var h', m', s', f' := k / 3_600_000, k / 60_000 % 60, k / 1000 % 60, k % 1000;
    ClockFieldsOrder(h, m, s, f, h', m', s', f', frac);
    ClockWhole(j);
    ClockWhole(k);
  }

  lemma ClockFieldsOrder(h: nat, m: nat, s: nat, f: nat, h': nat, m': nat, s': nat, f': nat, frac: char)
    requires h < 24 && m < 60 && s < 60 && f < 1000
    requires h' < 24 && m' < 60 && s' < 60 && f' < 1000
    ensures LexLess(FieldsText(h, m, s, f, frac), FieldsText(h', m', s', f', frac))
       <==> ((h * 60 + m) * 60 + s) * 1000 + f < ((h' * 60 + m') * 60 + s') * 1000 + f'
  {
    Widths();
    PadOrder(h, h', 2);
    PadOrder(m, m', 2);
    PadOrder(s, s', 2);
    PadOrder(f, f', 3);
    FieldAndSeparator(h, h', ":", Pad(m, 2) + (":" + (Pad(s, 2) + ([frac] + Pad(f, 3)))),
                                  Pad(m', 2) + (":" + (Pad(s', 2) + ([frac] + Pad(f', 3)))));
    FieldAndSeparator(m, m', ":", Pad(s, 2) + ([frac] + Pad(f, 3)), Pad(s', 2) + ([frac] + Pad(f', 3)));
    FieldAndSeparator(s, s', [frac], Pad(f, 3), Pad(f', 3));
  }

  lemma FieldAndSeparator(a: nat, b: nat, sep: string, rest: string, rest': string)
    requires a < 100 && b < 100
    ensures (Widths(); LexLess(Pad(a, 2) + (sep + rest), Pad(b, 2) + (sep + rest')))
       <==> a < b || (a == b && LexLess(rest, rest'))
  {
    Widths();
    ValueOfPad(a, 2);
    ValueOfPad(b, 2);
    PadOrder(a, b, 2);
    LexAppend(Pad(a, 2), Pad(b, 2), sep + rest, sep + rest');
    LexAppend(sep, sep, rest, rest');
    LexTotal(sep, sep);
  }

  // ---------------------------------------------------------------- date and clock together

  /** An instant `strftime` prints with a four-digit year on every platform. */
  predicate PrintableAt(t: Instant) {
    InCalendar(t) && Printable(DayOf(t))
  }

  function MillisOfDay(t: Instant): (k: nat)
    ensures k < MILLIS_PER_DAY
  {
    t % DAY / MILLI
  }

  function StampText(t: Instant, sep: char, frac: char): string
    requires PrintableAt(t)
  {
    DayText(DayOf(t), '-') + ([sep] + ClockText(MillisOfDay(t), frac))
  }

  predicate StampShape(s: string, sep: char, frac: char) {
    |s| == 23 && DayShape(s[..10], '-') && s[10] == sep && ClockShape(s[11..], frac)
  }

  function ReadStamp(s: string, sep: char, frac: char): Option<Instant>
    requires StampShape(s, sep, frac)
  {
    match ReadDay(s[..10], '-')
    case None => None
    case Some(day) =>
      match ReadClock(s[11..], frac)
      case None => None
      case Some(k) => Some(DayStart(day) + k * MILLI)
  }

  /** `t` with everything below a millisecond cut off. */
  function WholeMillis(t: Instant): Instant {
    t / MILLI * MILLI
  }

  lemma DayAndMillis(t: Instant)
    requires InCalendar(t)
    ensures DayStart(DayOf(t)) + MillisOfDay(t) * MILLI == WholeMillis(t)
    ensures InCalendar(WholeMillis(t)) && DayOf(WholeMillis(t)) == DayOf(t)
    ensures MillisOfDay(WholeMillis(t)) == MillisOfDay(t)
  {
    var n := t / DAY;
    assert DayStart(DayOf(t)) == n * DAY by {
      DayOfIsUnique(t, DayOf(t));
      assert Ordinal(DayOf(t)) == n;
    }
    var k := MillisOfDay(t);
    assert t == n * DAY + t % DAY;
    assert t / MILLI == n * MILLIS_PER_DAY + k;
    DayOfIsUnique(WholeMillis(t), DayOf(t));
    assert WholeMillis(t) == n * DAY + k * MILLI;
  }

  lemma DayAndRest(n: int, k: nat, t: Instant)
    requires k < MILLIS_PER_DAY
    requires t == n * DAY + k * MILLI
    ensures n * DAY <= t < n * DAY + DAY
    ensures t % DAY == k * MILLI && t % DAY / MILLI == k && t / MILLI * MILLI == t
  {
    assert k * MILLI < DAY;
    assert t == (n * MILLIS_PER_DAY + k) * MILLI;
    assert t / DAY == n;
  }

  lemma DayBeginsAt(day: Date, t: Instant)
    requires DayStart(day) <= t < DayStart(day) + DAY
    ensures InCalendar(t) && DayOf(t) == day
  {
    assert 1 <= Ordinal(day) <= MAX_ORDINAL by {
      OrdinalBounds(day);
    }
    DayOfIsUnique(t, day);
  }

  lemma AtDayAndMillis(day: Date, k: nat, t: Instant)
    requires k < MILLIS_PER_DAY
    requires t == DayStart(day) + k * MILLI
    ensures InCalendar(t) && DayOf(t) == day && MillisOfDay(t) == k && WholeMillis(t) == t
  {
    DayAndRest(Ordinal(day), k, t);
    DayBeginsAt(day, t);
  }

  lemma Halves(s: string, day: string, sep: char, clock: string)
    requires s == day + ([sep] + clock) && |day| == 10 && |clock| == 12
    ensures |s| == 23 && s[..10] == day && s[10] == sep && s[11..] == clock
  {
  }

  lemma StampTextHalves(t: Instant, sep: char, frac: char)
    requires PrintableAt(t)
    ensures StampShape(StampText(t, sep, frac), sep, frac)
    ensures StampText(t, sep, frac)[..10] == DayText(DayOf(t), '-')
    ensures StampText(t, sep, frac)[11..] == ClockText(MillisOfDay(t), frac)
  {
    DayTextShape(DayOf(t), '-');
    ReadClockOfClockText(MillisOfDay(t), frac);
    Halves(StampText(t, sep, frac), DayText(DayOf(t), '-'), sep, ClockText(MillisOfDay(t), frac));
  }

  lemma ReadStampFrom(s: string, sep: char, frac: char, day: string, clock: string, d: Date, k: nat)
    requires StampShape(s, sep, frac) && s[..10] == day && s[11..] == clock
    requires ReadDay(day, '-') == Some(d) && ReadClock(clock, frac) == Some(k)
    ensures ReadStamp(s, sep, frac) == Some(DayStart(d) + k * MILLI)
  {
  }

  lemma ReadStampOfParts(s: string, sep: char, frac: char, d: Date, k: nat, t: Instant)
    requires Printable(d) && k < MILLIS_PER_DAY
    requires t == DayStart(d) + k * MILLI
    requires |s| == 23 && s[..10] == DayText(d, '-') && s[10] == sep && s[11..] == ClockText(k, frac)
    ensures StampShape(s, sep, frac)
    ensures ReadStamp(s, sep, frac) == Some(t)
  {
    ReadDayOfDayText(d, '-');
    ReadClockOfClockText(k, frac);
    ReadStampFrom(s, sep, frac, s[..10], s[11..], d, k);
  }

  /** Reading a printed instant gives it back to the millisecond. */
  lemma ReadStampOfStampText(t: Instant, sep: char, frac: char)
    requires PrintableAt(t)
    ensures StampShape(StampText(t, sep, frac), sep, frac)
    ensures ReadStamp(StampText(t, sep, frac), sep, frac) == Some(WholeMillis(t))
  {
    StampTextHalves(t, sep, frac);
    DayAndMillis(t);
    ReadStampOfParts(StampText(t, sep, frac), sep, frac, DayOf(t), MillisOfDay(t), WholeMillis(t));
  }

  lemma StampTextFrom(t: Instant, sep: char, frac: char, d: Date, k: nat, day: string, clock: string)
    requires PrintableAt(t) && DayOf(t) == d && MillisOfDay(t) == k
    requires day == DayText(d, '-') && clock == ClockText(k, frac)
    ensures StampText(t, sep, frac) == day + ([sep] + clock)
  {
  }

  lemma Rejoin(s: string, sep: char)
    requires |s| == 23 && s[10] == sep
    ensures s == s[..10] + ([sep] + s[11..])
  {
  }

  lemma StampTextOfParts(day: string, clock: string, sep: char, frac: char, t: Instant)
    requires DayShape(day, '-') && ReadDay(day, '-').Some?
    requires ClockShape(clock, frac) && ReadClock(clock, frac).Some?
    requires t == DayStart(ReadDay(day, '-').value) + ReadClock(clock, frac).value * MILLI
    ensures InCalendar(t) && WholeMillis(t) == t
    ensures PrintableAt(t) ==> StampText(t, sep, frac) == day + ([sep] + clock)
  {
    var d, k := ReadDay(day, '-').value, ReadClock(clock, frac).value;
    AtDayAndMillis(d, k, t);
    if Printable(d) {
      DayTextOfReadDay(day, '-');
      ClockTextOfReadClock(clock, frac);
      StampTextFrom(t, sep, frac, d, k, day, clock);
    }
  }

  /** Printing a timestamp that was read gives the text back. */
  lemma StampTextOfReadStamp(s: string, sep: char, frac: char)
    requires StampShape(s, sep, frac) && ReadStamp(s, sep, frac).Some?
    ensures var t := ReadStamp(s, sep, frac).value;
      && InCalendar(t) && WholeMillis(t) == t
      && (PrintableAt(t) ==> StampText(t, sep, frac) == s)
  {
    StampTextOfParts(s[..10], s[11..], sep, frac, ReadStamp(s, sep, frac).value);
    Rejoin(s, sep);
  }

  /** String order of printed timestamps is time order, to the millisecond. */
  lemma StampTextOrder(t: Instant, u: Instant, sep: char, frac: char)
    requires PrintableAt(t) && PrintableAt(u)
    ensures LexLess(StampText(t, sep, frac), StampText(u, sep, frac)) <==> t / MILLI < u / MILLI
    ensures StampText(t, sep, frac) == StampText(u, sep, frac) <==> t / MILLI == u / MILLI
  {
    DayTextOrder(DayOf(t), DayOf(u), '-');
    DayTextShape(DayOf(t), '-');
    DayTextShape(DayOf(u), '-');
    ClockTextOrder(MillisOfDay(t), MillisOfDay(u), frac);
    LexAppend(DayText(DayOf(t), '-'), DayText(DayOf(u), '-'),
              [sep] + ClockText(MillisOfDay(t), frac), [sep] + ClockText(MillisOfDay(u), frac));
    LexAppend([sep], [sep], ClockText(MillisOfDay(t), frac), ClockText(MillisOfDay(u), frac));
    LexTotal([sep], [sep]);
    DayAndMillis(t);
    DayAndMillis(u);
    OrdinalIsOrder(DayOf(t), DayOf(u));
    ReadStampOfStampText(t, sep, frac);
    ReadStampOfStampText(u, sep, frac);
  }
}
