// What the shifter does to a text, line by line, told in printed timestamps; and to the driver's own logs.

module LogShift {

  import opened Calendar
  import opened Results
  import opened ShiftText
  import opened TextLines
  import opened Timestamps

  /** The line is a text that looks like a timestamp, a space, and anything. */
  ghost predicate Opens(f: Format, line: string, stamp: string, rest: string) {
    f.fits(stamp) && line == stamp + (" " + rest)
  }

  /** The timestamp is one, and printed anew `delta` later, with the rest of the line behind it. */
  ghost predicate MovedFrom(f: Format, line: string, out: string, delta: int, stamp: string, rest: string) {
    && Opens(f, line, stamp, rest)
    && f.read(stamp).Some? && f.write(f.read(stamp).value + delta).Ok?
    && out == f.write(f.read(stamp).value + delta).value + (" " + rest)
  }

  /** A line that opens with a timestamp is moved, any other is kept. */
  ghost predicate LineIsMoved(f: Format, line: string, out: string, delta: int) {
    if exists stamp, rest :: Opens(f, line, stamp, rest)
    then exists stamp, rest :: MovedFrom(f, line, out, delta, stamp, rest)
    else out == line
  }

  lemma OpensAtOnePlace(f: Format, line: string, stamp: string, rest: string)
    requires Lawful(f) && Opens(f, line, stamp, rest)
    ensures |line| > f.width && stamp == line[..f.width] && line[f.width] == ' '
    ensures line[f.width..] == " " + rest && line[f.width + 1..] == rest
  {
    assert line[f.width..] == " " + rest;
  }

  lemma StampedOpens(f: Format, line: string)
    requires Stamped(f, line)
    ensures Opens(f, line, line[..f.width], line[f.width + 1..])
  {
    assert line == line[..f.width] + (" " + line[f.width + 1..]);
  }

  lemma StampedIffOpens(f: Format, line: string)
    requires Lawful(f)
    ensures Stamped(f, line) <==> exists stamp, rest :: Opens(f, line, stamp, rest)
  {
    if Stamped(f, line) {
      StampedOpens(f, line);
    }
    if stamp, rest :| Opens(f, line, stamp, rest) {
      OpensAtOnePlace(f, line, stamp, rest);
    }
  }

  lemma OpeningIsMovedIff(f: Format, line: string, stamp: string, rest: string, out: string, delta: int)
    requires Lawful(f) && Opens(f, line, stamp, rest)
    ensures ShiftLine(f, line, delta) == Ok(out) <==> MovedFrom(f, line, out, delta, stamp, rest)
  {
    OpensAtOnePlace(f, line, stamp, rest);
  }

  lemma LineIsMovedIff(f: Format, line: string, out: string, delta: int)
    requires Lawful(f)
    ensures ShiftLine(f, line, delta) == Ok(out) <==> LineIsMoved(f, line, out, delta)
  {
    StampedIffOpens(f, line);
    if stamp, rest :| Opens(f, line, stamp, rest) {
      OpeningIsMovedIff(f, line, stamp, rest, out, delta);
      if other, tail :| MovedFrom(f, line, out, delta, other, tail) {
        OpensAtOnePlace(f, line, stamp, rest);
        OpensAtOnePlace(f, line, other, tail);
      }
    }
  }

  ghost predicate LinesAreMoved(f: Format, lines: seq<string>, out: seq<string>, delta: int) {
    |out| == |lines| && forall i | 0 <= i < |lines| :: LineIsMoved(f, lines[i], out[i], delta)
  }

  lemma {:induction false} LinesAreMovedIff(f: Format, lines: seq<string>, out: seq<string>, delta: int)
    requires Lawful(f)
    ensures ShiftLines(f, lines, delta) == Ok(out) <==> LinesAreMoved(f, lines, out, delta)
  {
    if lines != [] && out != [] {
      LineIsMovedIff(f, lines[0], out[0], delta);
      LinesAreMovedIff(f, lines[1..], out[1..], delta);
      assert out == [out[0]] + out[1..];
      ConsIsMoved(f, lines, out, delta);
    }
  }

  lemma ConsIsMoved(f: Format, lines: seq<string>, out: seq<string>, delta: int)
    requires lines != [] && out != []
    ensures LinesAreMoved(f, lines, out, delta)
       <==> LineIsMoved(f, lines[0], out[0], delta) && LinesAreMoved(f, lines[1..], out[1..], delta)
  {
    if LineIsMoved(f, lines[0], out[0], delta) && LinesAreMoved(f, lines[1..], out[1..], delta) {
      forall i | 0 <= i < |lines| ensures LineIsMoved(f, lines[i], out[i], delta) {
        if i > 0 {
          assert lines[i] == lines[1..][i - 1] && out[i] == out[1..][i - 1];
        }
      }
    }
    if LinesAreMoved(f, lines, out, delta) {
      forall i | 0 <= i < |lines| - 1 ensures LineIsMoved(f, lines[1..][i], out[1..][i], delta) {
        assert LineIsMoved(f, lines[i + 1], out[i + 1], delta);
      }
    }
  }

  /** A text is shifted to `out` exactly when `out` has the same number of lines, each the line it was with its timestamp
      moved, if it opens with one. */
  lemma ShiftedIff(f: Format, text: string, out: string, delta: int)
    requires Lawful(f)
    ensures Shifted(f, text, delta) == Ok(out) <==> LinesAreMoved(f, SplitLines(text), SplitLines(out), delta)
  {
    LinesAreMovedIff(f, SplitLines(text), SplitLines(out), delta);
    SplitLinesCutsExactly(out);
    if Shifted(f, text, delta) == Ok(out) {
      ShiftKeepsLayout(f, text, delta);
    }
  }

  // ---------------------------------------------------------------- one line

  /** Nothing, or one line break. */
  predicate IsEnd(end: string) {
    end == "" || end == "\r\n" || (|end| == 1 && IsBreak(end[0]))
  }

  lemma {:induction false} FirstLineWithEnd(body: string, end: string)
    requires body != "" && NoBreaks(body) && IsEnd(end)
    ensures FirstLine(body + end) == |body + end|
  {
    if |body| > 1 {
      assert (body + end)[1..] == body[1..] + end;
      assert NoBreaks(body[1..]);
      FirstLineWithEnd(body[1..], end);
    } else if end != "" {
      assert (body + end)[1..] == end;
    }
  }

  lemma OneLine(body: string, end: string)
    requires body != "" && NoBreaks(body) && IsEnd(end)
    ensures SplitLines(body + end) == [body + end]
  {
    var text := body + end;
    FirstLineWithEnd(body, end);
    assert text[..|text|] == text && text[|text|..] == "";
    assert SplitLines("") == [];
  }

  /** A timestamp, a space, any text, and the line break or the end of the log. */
  function Line(stamp: string, tail: string, end: string): string {
    stamp + (" " + tail) + end
  }

  lemma LineIsOneLine(stamp: string, tail: string, end: string)
    requires NoBreaks(stamp) && NoBreaks(tail) && IsEnd(end)
    ensures SplitLines(Line(stamp, tail, end)) == [Line(stamp, tail, end)]
  {
    OneLine(stamp + (" " + tail), end);
  }

  lemma SameTailSameStamp(x: string, y: string, rest: string)
    requires x + rest == y + rest
    ensures x == y
  {
    assert |x| == |y|;
    assert x == (x + rest)[..|x|] && y == (y + rest)[..|y|];
  }

  lemma LineOpens(f: Format, stamp: string, tail: string, end: string)
    requires f.fits(stamp)
    ensures Opens(f, Line(stamp, tail, end), stamp, tail + end)
  {
    assert Line(stamp, tail, end) == stamp + (" " + (tail + end));
  }

  lemma OneLineIsMovedIff(f: Format, line: string, out: string, delta: int)
    requires Lawful(f) && SplitLines(line) == [line] && SplitLines(out) == [out]
    ensures Shifted(f, line, delta) == Ok(out) <==> LineIsMoved(f, line, out, delta)
  {
    ShiftedIff(f, line, out, delta);
  }

  /** A printed line is shifted to another exactly when that has the text the moved instant is printed as. */
  lemma LineIsShiftedIff(f: Format, t: Instant, stamp: string, later: string, tail: string, end: string, delta: int)
    requires Lawful(f) && f.write(t) == Ok(stamp) && f.fits(later) && NoBreaks(tail) && IsEnd(end)
    ensures Shifted(f, Line(stamp, tail, end), delta) == Ok(Line(later, tail, end))
       <==> f.write(WholeMillis(t) + delta) == Ok(later)
  {
    var line, out := Line(stamp, tail, end), Line(later, tail, end);
    LineIsOneLine(stamp, tail, end);
    LineIsOneLine(later, tail, end);
    OneLineIsMovedIff(f, line, out, delta);
    LineOpens(f, stamp, tail, end);
    LineOpens(f, later, tail, end);
    OpeningIsMovedIff(f, line, stamp, tail + end, out, delta);
    LineIsMovedIff(f, line, out, delta);
    if MovedFrom(f, line, out, delta, stamp, tail + end) {
      SameTailSameStamp(f.write(WholeMillis(t) + delta).value, later, " " + (tail + end));
    }
  }

  lemma PrintedLineIsShiftedIff(f: Format, t: Instant, stamp: string, u: Instant, later: string, w: Instant,
                                tail: string, end: string, delta: int)
    requires Prints(f, [t, u]) && f.write(t) == Ok(stamp) && f.write(u) == Ok(later) && w == WholeMillis(t) + delta
    requires NoBreaks(tail) && IsEnd(end)
    ensures Shifted(f, Line(stamp, tail, end), delta) == Ok(Line(later, tail, end)) <==> f.write(w) == Ok(later)
  {
    assert [t, u][1..] == [u] && [u][1..] == [];
    assert Prints(f, [u]) && Prints(f, []);
    LineIsShiftedIff(f, t, stamp, later, tail, end, delta);
  }

  // ---------------------------------------------------------------- the driver's log

  lemma {:induction false} LogPrintsAll(f: Format, ts: seq<Instant>)
    requires f == LogFormat() && forall i | 0 <= i < |ts| :: PrintableAt(ts[i])
    ensures Prints(f, ts)
    decreases |ts|
  {
    if ts == [] {
      LogFormatIsLawful();
    } else {
      LogWrites(f, ts[0]);
      LogPrintsAll(f, ts[1..]);
    }
  }

  lemma LogWrites(f: Format, t: Instant)
    requires f == LogFormat() && PrintableAt(t)
    ensures f.write(t) == Ok(StampText(t, ' ', ','))
  {
  }

  lemma SameMilliIff(t: Instant, delta: int)
    ensures (WholeMillis(t) + delta) / MILLI == (t + delta) / MILLI <==> t % MILLI + delta % MILLI < MILLI
  {
    assert t == t / MILLI * MILLI + t % MILLI && delta == delta / MILLI * MILLI + delta % MILLI;
  }

  lemma SameMilliIsPrintable(u: Instant, w: Instant)
    requires PrintableAt(u) && w / MILLI == u / MILLI
    ensures PrintableAt(w)
  {
    DayAndMillis(u);
    assert WholeMillis(u) <= w < WholeMillis(u) + MILLI;
    assert MillisOfDay(u) * MILLI + MILLI <= DAY;
    DayBeginsAt(DayOf(u), w);
  }

  lemma LogWritesAlikeIff(f: Format, w: Instant, u: Instant)
    requires f == LogFormat() && PrintableAt(u)
    ensures f.write(w) == f.write(u) <==> w / MILLI == u / MILLI
  {
    LogWrites(f, u);
    if w / MILLI == u / MILLI {
      SameMilliIsPrintable(u, w);
    }
    if PrintableAt(w) {
      LogWrites(f, w);
      StampTextOrder(w, u, ' ', ',');
    }
  }

  lemma LogPrintsBoth(f: Format, t: Instant, stamp: string, u: Instant, later: string)
    requires f == LogFormat() && PrintableAt(t) && stamp == StampText(t, ' ', ',')
    requires PrintableAt(u) && later == StampText(u, ' ', ',')
    ensures Prints(f, [t, u]) && f.write(t) == Ok(stamp) && f.write(u) == Ok(later)
  {
    LogPrintsAll(f, [t, u]);
    LogWrites(f, t);
    LogWrites(f, u);
  }

  lemma LogLineAt(f: Format, t: Instant, stamp: string, u: Instant, later: string, w: Instant, tail: string, end: string)
    requires Prints(f, [t, u]) && f.write(t) == Ok(stamp) && f.write(u) == Ok(later) && w == WholeMillis(t) + (u - t)
    requires f.write(w) == f.write(u) <==> w / MILLI == u / MILLI
    requires NoBreaks(tail) && IsEnd(end)
    ensures Shifted(f, Line(stamp, tail, end), u - t) == Ok(Line(later, tail, end))
       <==> t % MILLI + (u - t) % MILLI < MILLI
  {
    PrintedLineIsShiftedIff(f, t, stamp, u, later, w, tail, end, u - t);
    SameMilliIff(t, u - t);
  }

  /** A line of the log is shifted to the line of its instant the delta later, tail and line break as they were, exactly
      when the microseconds cut off do not carry; so always, for an instant or a delta of whole milliseconds. */
  lemma LogLineIsShiftedIff(f: Format, t: Instant, stamp: string, u: Instant, later: string, tail: string, end: string)
    requires f == LogFormat() && PrintableAt(t) && stamp == StampText(t, ' ', ',')
    requires PrintableAt(u) && later == StampText(u, ' ', ',')
    requires NoBreaks(tail) && IsEnd(end)
    ensures Shifted(f, Line(stamp, tail, end), u - t) == Ok(Line(later, tail, end))
       <==> t % MILLI + (u - t) % MILLI < MILLI
  {
    LogPrintsBoth(f, t, stamp, u, later);
    var w := WholeMillis(t) + (u - t);
    LogWritesAlikeIff(f, w, u);
    LogLineAt(f, t, stamp, u, later, w, tail, end);
  }

  /** A line that does not open with a timestamp and a space comes back as it was. */
  lemma OtherLineStays(f: Format, line: string, delta: int)
    requires Lawful(f) && SplitLines(line) == [line] && !exists stamp, rest :: Opens(f, line, stamp, rest)
    ensures Shifted(f, line, delta) == Ok(line)
  {
    ShiftedIff(f, line, line, delta);
  }

  /** What the driver takes for a timestamp, reads and prints. */
  lemma LogFormatIs(f: Format, s: string, t: Instant)
    requires f == LogFormat()
    ensures f.fits(s) <==> StampShape(s, ' ', ',')
    ensures f.fits(s) ==> f.read(s) == ReadStamp(s, ' ', ',')
    ensures f.write(t) == if PrintableAt(t) then Ok(StampText(t, ' ', ','))
                          else Err(if InCalendar(t) then PlatformYear else Overflow)
  {
  }
}
