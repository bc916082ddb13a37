// Dates as fixed-width text: the `%Y<sep>%m<sep>%d` that partition names, bounds and timestamps share.
// `%Y` is padded to four digits on every platform from year 1000 on, so text is defined from there.

module DateText {

  import opened Calendar
  import opened Results
  import opened Text

  predicate Printable(d: Date) {
    d.year >= 1000
  }

  lemma Widths()
    ensures Pow10(2) == 100 && Pow10(3) == 1000 && Pow10(4) == 10000
  {
    assert Pow10(1) == 10;
  }

  function DayText(d: Date, sep: char): string
    requires Printable(d)
  {
    Widths();
    Pad(d.year, 4) + ([sep] + (Pad(d.month, 2) + ([sep] + Pad(d.day, 2))))
  }

  /** The ten characters of a `%Y<sep>%m<sep>%d`, whatever numbers they spell. */
  predicate DayShape(s: string, sep: char) {
    && |s| == 10
    && AllDigits(s[..4]) && s[4] == sep
    && AllDigits(s[5..7]) && s[7] == sep
    && AllDigits(s[8..])
  }

  /** What `strptime` reads: numbers that form no date are refused. */
  function ReadDay(s: string, sep: char): (r: Option<Date>)
    requires DayShape(s, sep)
  {
    var d := RawDate(Value(s[..4]), Value(s[5..7]), Value(s[8..]));
    if IsDate(d) then Some(d) else None
  }

  /** Three fields of those widths, put together, are found where `DayShape` looks for them. */
  lemma FieldsAreFound(y: string, m: string, d: string, sep: char, s: string)
    requires |y| == 4 && |m| == 2 && |d| == 2
    requires s == y + ([sep] + (m + ([sep] + d)))
    ensures |s| == 10 && s[4] == sep && s[7] == sep
    ensures s[..4] == y && s[5..7] == m && s[8..] == d
  {
    assert s[4..] == [sep] + (m + ([sep] + d));
    assert s[5..] == m + ([sep] + d);
    assert s[7..] == [sep] + d;
  }

  lemma DayTextShape(d: Date, sep: char)
    requires Printable(d)
    ensures DayShape(DayText(d, sep), sep)
    ensures DayText(d, sep)[..4] == (Widths(); Pad(d.year, 4))
    ensures DayText(d, sep)[5..7] == (Widths(); Pad(d.month, 2))
    ensures DayText(d, sep)[8..] == (Widths(); Pad(d.day, 2))
  {
    Widths();
    ValueOfPad(d.year, 4);
    ValueOfPad(d.month, 2);
    ValueOfPad(d.day, 2);
    FieldsAreFound(Pad(d.year, 4), Pad(d.month, 2), Pad(d.day, 2), sep, DayText(d, sep));
  }

  /** Reading a printed date gives the date back. */
  lemma ReadDayOfDayText(d: Date, sep: char)
    requires Printable(d)
    ensures DayShape(DayText(d, sep), sep)
    ensures ReadDay(DayText(d, sep), sep) == Some(d)
  {
    DayTextShape(d, sep);
    ValueOfPad(d.year, 4);
    ValueOfPad(d.month, 2);
    ValueOfPad(d.day, 2);
  }

  /** Printing a date that was read gives the text back. */
  lemma DayTextOfReadDay(s: string, sep: char)
    requires DayShape(s, sep) && ReadDay(s, sep).Some? && Printable(ReadDay(s, sep).value)
    ensures DayText(ReadDay(s, sep).value, sep) == s
  {
    PadOfValue(s[..4]);
    PadOfValue(s[5..7]);
    PadOfValue(s[8..]);
    assert s == s[..4] + ([sep] + (s[5..7] + ([sep] + s[8..])));
  }

  /** Of two texts that begin with fields of one width, the fields decide first. */
  lemma FieldDecides(x: nat, y: nat, width: nat, sep: char, rest: string, others: string)
    requires x < Pow10(width) && y < Pow10(width)
    ensures LexLess(Pad(x, width) + ([sep] + rest), Pad(y, width) + ([sep] + others))
       <==> x < y || (x == y && LexLess(rest, others))
  {
    ValueOfPad(x, width);
    ValueOfPad(y, width);
    PadOrder(x, y, width);
    LexAppend(Pad(x, width), Pad(y, width), [sep] + rest, [sep] + others);
    LexAppend([sep], [sep], rest, others);
    LexTotal([sep], [sep]);
  }

  lemma DayTextLess(a: Date, b: Date, sep: char)
    requires Printable(a) && Printable(b)
    ensures LexLess(DayText(a, sep), DayText(b, sep)) <==> Before(a, b)
  {
    Widths();
    FieldDecides(a.year, b.year, 4, sep,
                 Pad(a.month, 2) + ([sep] + Pad(a.day, 2)), Pad(b.month, 2) + ([sep] + Pad(b.day, 2)));
    FieldDecides(a.month, b.month, 2, sep, Pad(a.day, 2), Pad(b.day, 2));
    PadOrder(a.day, b.day, 2);
  }

  /** String order of printed dates is calendar order. */
  lemma DayTextOrder(a: Date, b: Date, sep: char)
    requires Printable(a) && Printable(b)
    ensures LexLess(DayText(a, sep), DayText(b, sep)) <==> Ordinal(a) < Ordinal(b)
    ensures DayText(a, sep) == DayText(b, sep) <==> a == b
  {
    DayTextLess(a, b, sep);
    OrdinalIsOrder(a, b);
    ReadDayOfDayText(a, sep);
    ReadDayOfDayText(b, sep);
  }
}
