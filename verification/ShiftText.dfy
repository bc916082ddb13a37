// The benchmark driver's timestamp shifter: every line that opens with a log timestamp is rewritten
// with the timestamp moved by a fixed delta, and everything else is kept.

module ShiftText {

  import opened Calendar
  import opened DateText
  import opened Results
  import opened Text
  import opened TextLines
  import opened Timestamps

  /** `BadTimestamp`: digits `strptime` refuses. `Overflow`: the sum leaves `datetime`. `PlatformYear`:
      a year below 1000, which `strftime` pads on some platforms only, so its text is left open. */
  datatype ShiftError = BadTimestamp | Overflow | PlatformYear

  /** A timestamp pattern with its `strptime` and `strftime`. The driver's is LogFormat; what is proved
      below holds of any Lawful one. */
  datatype Format = Format(
    width: nat,
    fits: string -> bool,
    read: string -> Option<Instant>,
    write: Instant -> Result<string, ShiftError>)

  ghost predicate Lawful(f: Format) {
    && f.width > 0
    && (forall s :: f.fits(s) ==> |s| == f.width && NoBreaks(s))
    && (forall s :: f.fits(s) && f.read(s).Some? ==>
          && WholeMillis(f.read(s).value) == f.read(s).value
          && (f.write(f.read(s).value).Ok? ==> f.write(f.read(s).value) == Ok(s)))
    && (forall t :: f.write(t).Ok? ==>
          && f.fits(f.write(t).value)
          && f.read(f.write(t).value) == Some(WholeMillis(t))
          && f.write(WholeMillis(t)) == f.write(t))
  }

  /** The line matches the timestamp pattern, trailing space included. */
  predicate Stamped(f: Format, line: string) {
    |line| > f.width && f.fits(line[..f.width]) && line[f.width] == ' '
  }

  function ReadLine(f: Format, line: string): Option<Instant>
    requires Stamped(f, line)
  {
    f.read(line[..f.width])
  }

  function ShiftLine(f: Format, line: string, delta: int): Result<string, ShiftError> {
    if !Stamped(f, line) then Ok(line)
    else match ReadLine(f, line)
      case None => Err(BadTimestamp)
      case Some(t) =>
        match f.write(t + delta)
        case Err(e) => Err(e)
        case Ok(stamp) => Ok(stamp + line[f.width..])
  }

  /** Line by line; the first refusal ends the run. */
  function ShiftLines(f: Format, lines: seq<string>, delta: int): Result<seq<string>, ShiftError> {
    if lines == [] then Ok([])
    else match ShiftLine(f, lines[0], delta)
      case Err(e) => Err(e)
      case Ok(line) =>
        match ShiftLines(f, lines[1..], delta)
        case Err(e) => Err(e)
        case Ok(rest) => Ok([line] + rest)
  }

  function Shifted(f: Format, text: string, delta: int): Result<string, ShiftError> {
    match ShiftLines(f, SplitLines(text), delta)
    case Err(e) => Err(e)
    case Ok(lines) => Ok(Join(lines))
  }

  function Prepend(done: seq<string>, rest: Result<seq<string>, ShiftError>): Result<seq<string>, ShiftError> {
    match rest
    case Err(e) => Err(e)
    case Ok(lines) => Ok(done + lines)
  }

  method ShiftText(f: Format, text: string, delta: int) returns (r: Result<string, ShiftError>)
    ensures r == Shifted(f, text, delta)
  {
    var lines := SplitLines(text);
    var out := [];
    assert lines[0..] == lines;
    PrependNothing(ShiftLines(f, lines, delta));
    for i := 0 to |lines|
      invariant ShiftLines(f, lines, delta) == Prepend(out, ShiftLines(f, lines[i..], delta))
    {
      var line := lines[i];
      assert lines[i..][0] == line && lines[i..][1..] == lines[i + 1..];
      if Stamped(f, line) {
        var m := f.read(line[..f.width]);
        if m.None? {
          return Err(BadTimestamp);
        }
        var stamp := f.write(m.value + delta);
        if stamp.Err? {
          return Err(stamp.error);
        }
        line := stamp.value + line[f.width..];
      }
      PrependStep(out, line, ShiftLines(f, lines[i + 1..], delta));
      out := out + [line];
    }
    assert lines[|lines|..] == [] && out + [] == out;
    r := Ok(Join(out));
  }

  lemma PrependNothing(rest: Result<seq<string>, ShiftError>)
    ensures Prepend([], rest) == rest
  {
    if rest.Ok? {
      assert [] + rest.value == rest.value;
    }
  }

  lemma PrependStep(done: seq<string>, line: string, rest: Result<seq<string>, ShiftError>)
    ensures Prepend(done + [line], rest) == Prepend(done, Prepend([line], rest))
  {
    if rest.Ok? {
      assert done + [line] + rest.value == done + ([line] + rest.value);
    }
  }

  // ---------------------------------------------------------------- one line

  /** What a shifted line is: same tail, still stamped, and reading as the moved instant. */
  predicate Moved(f: Format, line: string, out: string, delta: int) {
    if Stamped(f, line) then
      && ReadLine(f, line).Some? && f.write(ReadLine(f, line).value + delta).Ok?
      && |out| == |line| && out[f.width..] == line[f.width..]
      && Stamped(f, out) && ReadLine(f, out) == Some(WholeMillis(ReadLine(f, line).value + delta))
    else out == line
  }

  lemma ShiftLineMoves(f: Format, line: string, delta: int)
    requires Lawful(f)
    ensures ShiftLine(f, line, delta).Ok? ==> Moved(f, line, ShiftLine(f, line, delta).value, delta)
  {
    if Stamped(f, line) && ReadLine(f, line).Some? {
      var stamp := f.write(ReadLine(f, line).value + delta);
      if stamp.Ok? {
        assert (stamp.value + line[f.width..])[..f.width] == stamp.value;
      }
    }
  }

  // ---------------------------------------------------------------- all lines

  predicate AllMoved(f: Format, lines: seq<string>, out: seq<string>, delta: int) {
    && |out| == |lines|
    && (lines == [] || (Moved(f, lines[0], out[0], delta) && AllMoved(f, lines[1..], out[1..], delta)))
  }

  lemma {:induction false} AllMovedIsEachMoved(f: Format, lines: seq<string>, out: seq<string>, delta: int)
    requires AllMoved(f, lines, out, delta)
    ensures |out| == |lines| && forall i | 0 <= i < |lines| :: Moved(f, lines[i], out[i], delta)
  {
    if lines != [] {
      AllMovedIsEachMoved(f, lines[1..], out[1..], delta);
      forall i | 0 <= i < |lines| ensures Moved(f, lines[i], out[i], delta) {
        if i > 0 {
          assert lines[i] == lines[1..][i - 1] && out[i] == out[1..][i - 1];
        }
      }
    }
  }

  lemma {:induction false} ShiftLinesMove(f: Format, lines: seq<string>, delta: int)
    requires Lawful(f)
    ensures ShiftLines(f, lines, delta).Ok? ==> AllMoved(f, lines, ShiftLines(f, lines, delta).value, delta)
  {
    if lines != [] {
      ShiftLineMoves(f, lines[0], delta);
      ShiftLinesMove(f, lines[1..], delta);
    }
  }

  function StampedCount(f: Format, lines: seq<string>): nat {
    if lines == [] then 0 else (if Stamped(f, lines[0]) then 1 else 0) + StampedCount(f, lines[1..])
  }

  lemma {:induction false} AllMovedKeepsCount(f: Format, lines: seq<string>, out: seq<string>, delta: int)
    requires AllMoved(f, lines, out, delta)
    ensures StampedCount(f, out) == StampedCount(f, lines)
  {
    if lines != [] {
      AllMovedKeepsCount(f, lines[1..], out[1..], delta);
    }
  }

  /** A shift that succeeds keeps every line boundary, every unstamped line, every line's tail and the
      number of stamped lines, and moves every timestamp by exactly the delta, cut to the millisecond. */
  lemma ShiftKeepsLayout(f: Format, text: string, delta: int)
    requires Lawful(f) && Shifted(f, text, delta).Ok?
    ensures ShiftLines(f, SplitLines(text), delta) == Ok(SplitLines(Shifted(f, text, delta).value))
    ensures AllMoved(f, SplitLines(text), SplitLines(Shifted(f, text, delta).value), delta)
    ensures StampedCount(f, SplitLines(Shifted(f, text, delta).value)) == StampedCount(f, SplitLines(text))
  {
    var lines := SplitLines(text);
    var out := ShiftLines(f, lines, delta).value;
    ShiftLinesMove(f, lines, delta);
    SplitLinesCutsExactly(text);
    AllMovedIsEachMoved(f, lines, out, delta);
    forall i | 0 <= i < |lines| ensures lines[i] == out[i] || FrontReplaced(lines[i], out[i], f.width) {
      assert Moved(f, lines[i], out[i], delta);
    }
    FrontsReplacedAreLines(lines, out, f.width);
    AllMovedKeepsCount(f, lines, out, delta);
  }

  // ---------------------------------------------------------------- shifting by nothing

  /** The line carries no timestamp, or one that is a real instant with a printable year. */
  predicate Stable(f: Format, line: string) {
    Stamped(f, line) ==> ReadLine(f, line).Some? && f.write(ReadLine(f, line).value).Ok?
  }

  lemma ShiftLineByZero(f: Format, line: string)
    requires Lawful(f)
    ensures ShiftLine(f, line, 0) == (if Stable(f, line) then Ok(line) else ShiftLine(f, line, 0))
    ensures ShiftLine(f, line, 0).Ok? <==> Stable(f, line)
  {
    if Stamped(f, line) && Stable(f, line) {
      assert f.write(ReadLine(f, line).value) == Ok(line[..f.width]);
      assert line == line[..f.width] + line[f.width..];
    }
  }

  predicate AllStable(f: Format, lines: seq<string>) {
    lines == [] || (Stable(f, lines[0]) && AllStable(f, lines[1..]))
  }

  lemma {:induction false} ShiftLinesByZero(f: Format, lines: seq<string>)
    requires Lawful(f)
    ensures ShiftLines(f, lines, 0).Ok? <==> AllStable(f, lines)
    ensures AllStable(f, lines) ==> ShiftLines(f, lines, 0) == Ok(lines)
  {
    if lines != [] {
      ShiftLineByZero(f, lines[0]);
      ShiftLinesByZero(f, lines[1..]);
      assert lines == [lines[0]] + lines[1..];
    }
  }

  /** Shifting by nothing is the identity exactly when every timestamp in the text is valid and printable,
      and is refused otherwise. */
  lemma ShiftByZeroIsIdentityIff(f: Format, text: string)
    requires Lawful(f)
    ensures Shifted(f, text, 0) == Ok(text) <==> AllStable(f, SplitLines(text))
    ensures Shifted(f, text, 0).Ok? <==> AllStable(f, SplitLines(text))
  {
    ShiftLinesByZero(f, SplitLines(text));
    SplitLinesCutsExactly(text);
  }

  // ---------------------------------------------------------------- shifting twice

  lemma WholeMillisAdd(t: Instant, a: int)
    requires WholeMillis(t) == t
    ensures WholeMillis(t + a) == t + WholeMillis(a)
    ensures a % MILLI == 0 ==> WholeMillis(t + a) == t + a
  {
    assert (t + a) / MILLI == t / MILLI + a / MILLI;
  }

  lemma MovedAgain(f: Format, line: string, out: string, a: int, b: int)
    requires Lawful(f) && Moved(f, line, out, a) && a % MILLI == 0
    ensures ShiftLine(f, out, b) == ShiftLine(f, line, a + b)
  {
    if Stamped(f, line) {
      var t := ReadLine(f, line).value;
      WholeMillisAdd(t, a);
      assert t + a + b == t + (a + b);
    }
  }

  lemma {:induction false} AllMovedAgain(f: Format, lines: seq<string>, out: seq<string>, a: int, b: int)
    requires Lawful(f) && AllMoved(f, lines, out, a) && a % MILLI == 0
    ensures ShiftLines(f, out, b) == ShiftLines(f, lines, a + b)
  {
    if lines != [] {
      MovedAgain(f, lines[0], out[0], a, b);
      AllMovedAgain(f, lines[1..], out[1..], a, b);
    }
  }

  /** Shifting by whole milliseconds and then by anything is shifting by the sum, refusals included. */
  lemma ShiftsCompose(f: Format, text: string, a: int, b: int)
    requires Lawful(f) && Shifted(f, text, a).Ok? && a % MILLI == 0
    ensures Shifted(f, Shifted(f, text, a).value, b) == Shifted(f, text, a + b)
  {
    ShiftKeepsLayout(f, text, a);
    AllMovedAgain(f, SplitLines(text), SplitLines(Shifted(f, text, a).value), a, b);
  }

  lemma ShiftsCancel(f: Format, text: string, mid: string, a: int, b: int)
    requires Lawful(f) && Shifted(f, text, a) == Ok(mid) && a % MILLI == 0 && a + b == 0
    ensures Shifted(f, mid, b) == Shifted(f, text, 0)
  {
    ShiftsCompose(f, text, a, b);
  }

  /** A whole-millisecond shift is undone by its opposite exactly when the text was printable to begin with. */
  lemma ShiftBackUndoesIff(f: Format, text: string, mid: string, a: int)
    requires Lawful(f) && Shifted(f, text, a) == Ok(mid) && a % MILLI == 0
    ensures Shifted(f, mid, -a) == Ok(text) <==> AllStable(f, SplitLines(text))
  {
    ShiftsCancel(f, text, mid, a, -a);
    ShiftByZeroIsIdentityIff(f, text);
  }

  // ---------------------------------------------------------------- deltas below a millisecond

  lemma Carry(a: int, b: int)
    ensures WholeMillis(a) + WholeMillis(b) == WholeMillis(a + b) <==> a % MILLI + b % MILLI < MILLI
  {
  }

  lemma TwiceReadsLikeOnceIff(t: Instant, a: int, b: int)
    requires WholeMillis(t) == t
    ensures WholeMillis(WholeMillis(t + a) + b) == WholeMillis(t + (a + b)) <==> a % MILLI + b % MILLI < MILLI
  {
    WholeMillisAdd(t, a);
    WholeMillisAdd(t, a + b);
    WholeMillisAdd(WholeMillis(t + a), b);
    Carry(a, b);
  }

  lemma MovedIsStable(f: Format, line: string, out: string, delta: int)
    requires Lawful(f) && Moved(f, line, out, delta)
    ensures Stamped(f, line) ==> f.write(ReadLine(f, out).value) == Ok(out[..f.width])
  {
  }

  lemma SameReading(f: Format, x: string, y: string)
    requires Stamped(f, x) && Stamped(f, y) && x[f.width..] == y[f.width..]
    requires ReadLine(f, x).Some? && f.write(ReadLine(f, x).value) == Ok(x[..f.width])
    requires ReadLine(f, y).Some? && f.write(ReadLine(f, y).value) == Ok(y[..f.width])
    ensures x == y <==> ReadLine(f, x) == ReadLine(f, y)
  {
    assert x == x[..f.width] + x[f.width..] && y == y[..f.width] + y[f.width..];
  }

  lemma TwiceReadsAsOnce(f: Format, line: string, mid: string, twice: string, once: string, a: int, b: int)
    requires Stamped(f, line) && Moved(f, line, mid, a) && Moved(f, mid, twice, b) && Moved(f, line, once, a + b)
    requires WholeMillis(ReadLine(f, line).value) == ReadLine(f, line).value
    ensures twice[f.width..] == once[f.width..]
    ensures ReadLine(f, twice) == ReadLine(f, once) <==> a % MILLI + b % MILLI < MILLI
  {
    TwiceReadsLikeOnceIff(ReadLine(f, line).value, a, b);
  }

  lemma TwiceIsOnceOnLine(f: Format, line: string, mid: string, twice: string, once: string, a: int, b: int)
    requires Lawful(f)
    requires Moved(f, line, mid, a) && Moved(f, mid, twice, b) && Moved(f, line, once, a + b)
    ensures twice == once <==> (Stamped(f, line) ==> a % MILLI + b % MILLI < MILLI)
  {
    if Stamped(f, line) {
      TwiceReadsAsOnce(f, line, mid, twice, once, a, b);
      MovedIsStable(f, mid, twice, b);
      MovedIsStable(f, line, once, a + b);
      SameReading(f, twice, once);
    }
  }

  lemma {:induction false} TwiceIsOnceOnLines(f: Format, lines: seq<string>, mid: seq<string>,
                                              twice: seq<string>, once: seq<string>, a: int, b: int)
    requires Lawful(f)
    requires AllMoved(f, lines, mid, a) && AllMoved(f, mid, twice, b) && AllMoved(f, lines, once, a + b)
    ensures twice == once <==> (StampedCount(f, lines) > 0 ==> a % MILLI + b % MILLI < MILLI)
  {
    if lines != [] {
      TwiceIsOnceOnLine(f, lines[0], mid[0], twice[0], once[0], a, b);
      TwiceIsOnceOnLines(f, lines[1..], mid[1..], twice[1..], once[1..], a, b);
      assert twice == [twice[0]] + twice[1..] && once == [once[0]] + once[1..];
    }
  }

  lemma ShiftMovesLines(f: Format, text: string, delta: int, out: string)
    requires Lawful(f) && Shifted(f, text, delta) == Ok(out)
    ensures AllMoved(f, SplitLines(text), SplitLines(out), delta)
  {
    ShiftKeepsLayout(f, text, delta);
  }

  lemma TwiceIsOnceOnText(f: Format, lines: seq<string>, mid: seq<string>, twice: string, once: string, a: int, b: int)
    requires Lawful(f)
    requires AllMoved(f, lines, mid, a) && AllMoved(f, mid, SplitLines(twice), b)
    requires AllMoved(f, lines, SplitLines(once), a + b)
    ensures twice == once <==> (StampedCount(f, lines) > 0 ==> a % MILLI + b % MILLI < MILLI)
  {
    TwiceIsOnceOnLines(f, lines, mid, SplitLines(twice), SplitLines(once), a, b);
    SameTextIff(twice, once);
  }

  lemma SameTextIff(a: string, b: string)
    ensures a == b <==> SplitLines(a) == SplitLines(b)
  {
    SplitLinesCutsExactly(a);
    SplitLinesCutsExactly(b);
  }

  /** For any deltas, two shifts equal the one by their sum exactly when the microseconds they cut off do
      not carry into another millisecond, given that the text has a timestamp for it to matter to. */
  lemma ShiftsComposeIff(f: Format, text: string, mid: string, twice: string, once: string, a: int, b: int)
    requires Lawful(f) && Shifted(f, text, a) == Ok(mid) && Shifted(f, mid, b) == Ok(twice)
    requires Shifted(f, text, a + b) == Ok(once)
    ensures twice == once <==> (StampedCount(f, SplitLines(text)) > 0 ==> a % MILLI + b % MILLI < MILLI)
  {
    assert AllMoved(f, SplitLines(text), SplitLines(mid), a) by {
      ShiftMovesLines(f, text, a, mid);
    }
    assert AllMoved(f, SplitLines(mid), SplitLines(twice), b) by {
      ShiftMovesLines(f, mid, b, twice);
    }
    assert AllMoved(f, SplitLines(text), SplitLines(once), a + b) by {
      ShiftMovesLines(f, text, a + b, once);
    }
    TwiceIsOnceOnText(f, SplitLines(text), SplitLines(mid), twice, once, a, b);
  }

  // ---------------------------------------------------------------- the driver's own format

  function ReadLog(s: string): Option<Instant> {
    if StampShape(s, ' ', ',') then ReadStamp(s, ' ', ',') else None
  }

  function PrintLog(t: Instant): Result<string, ShiftError> {
    if !InCalendar(t) then Err(Overflow)
    else if !PrintableAt(t) then Err(PlatformYear)
    else Ok(StampText(t, ' ', ','))
  }

  /** `2026-06-14 10:00:00,000`. */
  function LogFormat(): Format {
    Format(23, s => StampShape(s, ' ', ','), s => ReadLog(s), t => PrintLog(t))
  }

  lemma StampHasNoBreaks(s: string)
    requires StampShape(s, ' ', ',')
    ensures NoBreaks(s)
  {
    forall i | 0 <= i < |s| ensures !IsBreak(s[i]) {
      if i < 10 {
        assert s[i] == s[..10][i];
        DayHasNoBreaks(s[..10], i);
      } else if i > 10 {
        assert s[i] == s[11..][i - 11];
        ClockHasNoBreaks(s[11..], i - 11);
      }
    }
  }

  lemma DayHasNoBreaks(s: string, i: nat)
    requires DayShape(s, '-') && i < 10
    ensures !IsBreak(s[i])
  {
    assert i < 4 ==> IsDigit(s[..4][i]);
    assert 5 <= i < 7 ==> IsDigit(s[5..7][i - 5]);
    assert 8 <= i ==> IsDigit(s[8..][i - 8]);
  }

  lemma ClockHasNoBreaks(s: string, i: nat)
    requires ClockShape(s, ',') && i < 12
    ensures !IsBreak(s[i])
  {
    assert i < 2 ==> IsDigit(s[..2][i]);
    assert 3 <= i < 5 ==> IsDigit(s[3..5][i - 3]);
    assert 6 <= i < 8 ==> IsDigit(s[6..8][i - 6]);
    assert 9 <= i ==> IsDigit(s[9..][i - 9]);
  }

  lemma LogReads(s: string)
    requires StampShape(s, ' ', ',') && ReadLog(s).Some?
    ensures WholeMillis(ReadLog(s).value) == ReadLog(s).value
    ensures PrintLog(ReadLog(s).value).Ok? ==> PrintLog(ReadLog(s).value) == Ok(s)
  {
    StampTextOfReadStamp(s, ' ', ',');
  }

  lemma SameTextFrom(t: Instant, u: Instant)
    requires PrintableAt(t) && InCalendar(u) && DayOf(u) == DayOf(t) && MillisOfDay(u) == MillisOfDay(t)
    ensures PrintLog(u) == PrintLog(t)
  {
  }

  lemma LogPrints(t: Instant)
    requires PrintLog(t).Ok?
    ensures StampShape(PrintLog(t).value, ' ', ',')
    ensures ReadLog(PrintLog(t).value) == Some(WholeMillis(t))
    ensures PrintLog(WholeMillis(t)) == PrintLog(t)
  {
    ReadStampOfStampText(t, ' ', ',');
    DayAndMillis(t);
    SameTextFrom(t, WholeMillis(t));
  }

  /** The log's timestamps are lawful, so everything above holds of the driver. */
  lemma LogFormatIsLawful()
    ensures Lawful(LogFormat())
  {
    var f := LogFormat();
    forall s | f.fits(s) ensures |s| == f.width && NoBreaks(s) {
      StampHasNoBreaks(s);
    }
    forall s | f.fits(s) && f.read(s).Some?
      ensures WholeMillis(f.read(s).value) == f.read(s).value
      ensures f.write(f.read(s).value).Ok? ==> f.write(f.read(s).value) == Ok(s)
    {
      LogReads(s);
    }
    forall t | f.write(t).Ok?
      ensures f.fits(f.write(t).value) && f.read(f.write(t).value) == Some(WholeMillis(t))
      ensures f.write(WholeMillis(t)) == f.write(t)
    {
      LogPrints(t);
    }
  }

  // ---------------------------------------------------------------- a carry, at an input

  lemma {:induction false} NoBreakIsOneLine(text: string)
    requires text != "" && NoBreaks(text)
    ensures SplitLines(text) == [text]
  {
    FirstLineOfNoBreaks(text);
    assert text[..|text|] == text && text[|text|..] == "";
    assert SplitLines("") == [];
  }

  lemma {:induction false} FirstLineOfNoBreaks(text: string)
    requires text != "" && NoBreaks(text)
    ensures FirstLine(text) == |text|
  {
    if |text| > 1 {
      assert text[1..] != "" && NoBreaks(text[1..]);
      FirstLineOfNoBreaks(text[1..]);
    }
  }

  lemma OneLineShifts(f: Format, text: string, delta: int)
    requires SplitLines(text) == [text] && ShiftLine(f, text, delta).Ok?
    ensures Shifted(f, text, delta) == Ok(ShiftLine(f, text, delta).value)
  {
    assert ShiftLines(f, [], delta) == Ok([]);
    assert [text][1..] == [] && Join([]) == "";
    var line := ShiftLine(f, text, delta).value;
    assert [line] + [] == [line] && line + "" == line;
    assert Join([line]) == line + Join([]);
  }

  lemma OneLineStaysOneLine(f: Format, line: string, t: Instant, delta: int)
    requires Lawful(f) && SplitLines(line) == [line] && Stamped(f, line) && ReadLine(f, line) == Some(t)
    requires f.write(t + delta).Ok?
    ensures Shifted(f, line, delta).Ok?
    ensures var out := Shifted(f, line, delta).value;
      SplitLines(out) == [out] && Stamped(f, out) && ReadLine(f, out) == Some(WholeMillis(t + delta))
  {
    OneLineShifts(f, line, delta);
    var out := Shifted(f, line, delta).value;
    ShiftKeepsLayout(f, line, delta);
    SplitLinesCutsExactly(out);
    assert |SplitLines(out)| == 1;
    assert SplitLines(out) == [SplitLines(out)[0]] && Join(SplitLines(out)[1..]) == "";
    assert SplitLines(out)[0] + "" == out;
    AllMovedIsEachMoved(f, [line], SplitLines(out), delta);
    assert Moved(f, [line][0], SplitLines(out)[0], delta);
  }

  lemma TwoCarriesDiffer(f: Format, line: string, mid: string)
    requires Lawful(f) && StampedCount(f, SplitLines(line)) > 0
    requires Shifted(f, line, 600) == Ok(mid) && Shifted(f, mid, 600).Ok? && Shifted(f, line, 1200).Ok?
    ensures Shifted(f, mid, 600) != Shifted(f, line, 1200)
  {
    ShiftsComposeIff(f, line, mid, Shifted(f, mid, 600).value, Shifted(f, line, 1200).value, 600, 600);
  }

  lemma OneStamp(f: Format, line: string)
    requires SplitLines(line) == [line] && Stamped(f, line)
    ensures StampedCount(f, SplitLines(line)) > 0
  {
    assert [line][0] == line;
  }

  /** A lawful format that can print each of the instants. */
  ghost predicate Prints(f: Format, ts: seq<Instant>)
    decreases |ts|
  {
    if ts == [] then Lawful(f) else f.write(ts[0]).Ok? && Prints(f, ts[1..])
  }

  lemma PrintsThree(f: Format, x: Instant, y: Instant, z: Instant)
    requires Prints(f, [x, y, z])
    ensures Lawful(f) && f.write(x).Ok? && f.write(y).Ok? && f.write(z).Ok?
  {
    assert [x, y, z][1..] == [y, z] && [y, z][1..] == [z] && [z][1..] == [];
    assert Prints(f, [y, z]) && Prints(f, [z]) && Prints(f, []);
  }

  /** A line that says nothing but a time. */
  lemma JustTheTimeIsALine(f: Format, stamp: string, line: string, t: Instant)
    requires Lawful(f) && WholeMillis(t) == t && f.write(t) == Ok(stamp) && line == stamp + " "
    ensures SplitLines(line) == [line] && Stamped(f, line) && ReadLine(f, line) == Some(t)
  {
    assert line[..f.width] == stamp;
    forall i | 0 <= i < |line| ensures !IsBreak(line[i]) {
      assert i < |stamp| ==> line[i] == stamp[i];
    }
    NoBreakIsOneLine(line);
  }

  /** 600 microseconds on, the line says what it said, and can be moved by 600 again. */
  lemma CutToNothing(f: Format, line: string, t: Instant) returns (mid: string)
    requires Lawful(f) && f.write(t + 600).Ok? && WholeMillis(t) == t
    requires SplitLines(line) == [line] && Stamped(f, line) && ReadLine(f, line) == Some(t)
    ensures Shifted(f, line, 600) == Ok(mid) && Shifted(f, mid, 600).Ok?
  {
    mid := OneLineOut(f, line, t, 600, t);
    var again := OneLineOut(f, mid, t, 600, t);
  }

  lemma OneLineOut(f: Format, line: string, t: Instant, delta: int, later: Instant) returns (out: string)
    requires Lawful(f) && SplitLines(line) == [line] && Stamped(f, line) && ReadLine(f, line) == Some(t)
    requires f.write(t + delta).Ok? && WholeMillis(t + delta) == later
    ensures Shifted(f, line, delta) == Ok(out)
    ensures SplitLines(out) == [out] && Stamped(f, out) && ReadLine(f, out) == Some(later)
  {
    OneLineStaysOneLine(f, line, t, delta);
    out := Shifted(f, line, delta).value;
  }

  lemma CarriesAreLostOn(f: Format, line: string, t: Instant) returns (mid: string)
    requires Lawful(f) && f.write(t + 600).Ok? && f.write(t + 1200).Ok? && WholeMillis(t) == t
    requires SplitLines(line) == [line] && Stamped(f, line) && ReadLine(f, line) == Some(t)
    ensures Shifted(f, line, 600) == Ok(mid) && Shifted(f, mid, 600).Ok? && Shifted(f, line, 1200).Ok?
    ensures Shifted(f, mid, 600) != Shifted(f, line, 1200)
  {
    mid := CutToNothing(f, line, t);
    OneLineStaysOneLine(f, line, t, 1200);
    OneStamp(f, line);
    TwoCarriesDiffer(f, line, mid);
  }

  /** Two shifts of 600 microseconds are never one of 1200: each is cut to nothing. */
  lemma CarriesAreLost(f: Format, t: Instant) returns (line: string, mid: string)
    requires WholeMillis(t) == t && Prints(f, [t, t + 600, t + 1200])
    ensures f.write(t).Ok? && line == f.write(t).value + " "
    ensures Shifted(f, line, 600) == Ok(mid) && Shifted(f, mid, 600).Ok? && Shifted(f, line, 1200).Ok?
    ensures Shifted(f, mid, 600) != Shifted(f, line, 1200)
  {
    PrintsThree(f, t, t + 600, t + 1200);
    line := f.write(t).value + " ";
    JustTheTimeIsALine(f, f.write(t).value, line, t);
    mid := CarriesAreLostOn(f, line, t);
  }

  lemma LogWritesEveryYear(t: Instant)
    ensures LogFormat().write(t).Ok? <==> PrintableAt(t)
  {
  }

  lemma {:induction false} LogPrintsTheDay(f: Format, day: Date, ts: seq<Instant>)
    requires f == LogFormat() && Printable(day)
    requires forall i | 0 <= i < |ts| :: DayStart(day) <= ts[i] < DayStart(day) + DAY
    ensures Prints(f, ts)
    decreases |ts|
  {
    if ts == [] {
      LogFormatIsLawful();
    } else {
      DayBeginsAt(day, ts[0]);
      LogWritesEveryYear(ts[0]);
      LogPrintsTheDay(f, day, ts[1..]);
    }
  }

  lemma MidnightIsWhole(day: Date)
    ensures WholeMillis(DayStart(day)) == DayStart(day)
  {
    assert DayStart(day) == Ordinal(day) * (DAY / MILLI) * MILLI;
  }

  /** In the log there are such lines, one for every day; this is midnight of 14 June 2026. */
  lemma ACarryIsLostInTheLog() returns (f: Format, day: Date, line: string, mid: string)
    ensures f == LogFormat() && day == RawDate(2026, 6, 14)
    ensures f.write(DayStart(day)).Ok? && line == f.write(DayStart(day)).value + " "
    ensures Shifted(f, line, 600) == Ok(mid) && Shifted(f, mid, 600).Ok? && Shifted(f, line, 1200).Ok?
    ensures Shifted(f, mid, 600) != Shifted(f, line, 1200)
  {
    day, f := RawDate(2026, 6, 14), LogFormat();
    line, mid := CarryAtMidnight(f, day);
  }

  lemma CarryAtMidnight(f: Format, day: Date) returns (line: string, mid: string)
    requires f == LogFormat() && Printable(day)
    ensures f.write(DayStart(day)).Ok? && line == f.write(DayStart(day)).value + " "
    ensures Shifted(f, line, 600) == Ok(mid) && Shifted(f, mid, 600).Ok? && Shifted(f, line, 1200).Ok?
    ensures Shifted(f, mid, 600) != Shifted(f, line, 1200)
  {
    var t := DayStart(day);
    MidnightIsWhole(day);
    LogPrintsTheDay(f, day, [t, t + 600, t + 1200]);
    line, mid := CarriesAreLost(f, t);
  }
}
