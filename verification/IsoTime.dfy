// The saved-views API's timestamp text, `2026-06-14T10:00:00.000Z` (section 5.6 of RFC 3339), which
// its client sorts as plain strings.

module IsoTime {

  import opened Calendar
  import opened Results
  import opened Text
  import opened Timestamps

  /** A `datetime`: a wall clock, and how far it is ahead of UTC if it says so. */
  datatype Moment = Naive(wall: Instant) | Aware(wall: Instant, offset: int)

  /** A naive datetime is taken to be UTC. */
  function InUtc(m: Moment): Instant {
    match m
    case Naive(wall) => wall
    case Aware(wall, offset) => wall - offset
  }

  function IsoZ(m: Moment): string
    requires PrintableAt(InUtc(m))
  {
    StampText(InUtc(m), 'T', '.') + "Z"
  }

  /** A clock that is `offset` ahead of UTC shows that much more, and the printed time is the same. */
  lemma ClockAheadPrintsTheSame(t: Instant, offset: int)
    requires PrintableAt(t)
    ensures InUtc(Aware(t + offset, offset)) == InUtc(Naive(t)) == t
    ensures IsoZ(Aware(t + offset, offset)) == IsoZ(Naive(t))
  {
  }

  /** Twenty-four characters, in the places of `2026-06-14T10:00:00.000Z`, that read as the instant's millisecond. */
  lemma IsoReads(t: Instant)
    requires PrintableAt(t)
    ensures var s := IsoZ(Naive(t));
      && |s| == 24 && s[10] == 'T' && s[19] == '.' && s[23] == 'Z'
      && StampShape(s[..23], 'T', '.') && ReadStamp(s[..23], 'T', '.') == Some(WholeMillis(t))
  {
    ReadStampOfStampText(t, 'T', '.');
    ZAtEnd(StampText(t, 'T', '.'));
    assert StampText(t, 'T', '.')[11..][8] == '.';
  }

  lemma ZAtEnd(stamp: string)
    ensures (stamp + "Z")[..|stamp|] == stamp && (stamp + "Z")[|stamp|] == 'Z' && |stamp + "Z"| == |stamp| + 1
  {
  }

  lemma SameEnding(a: string, b: string)
    requires |a| == |b|
    ensures LexLess(a + "Z", b + "Z") <==> LexLess(a, b)
    ensures a + "Z" == b + "Z" <==> a == b
  {
    LexAppend(a, b, "Z", "Z");
    LexTotal("Z", "Z");
    assert (a + "Z")[..|a|] == a && (b + "Z")[..|b|] == b;
  }

  lemma StampOrder(t: Instant, u: Instant, x: string, y: string)
    requires PrintableAt(t) && PrintableAt(u)
    requires x == StampText(t, 'T', '.') && y == StampText(u, 'T', '.')
    ensures |x| == |y|
    ensures LexLess(x, y) <==> t / MILLI < u / MILLI
    ensures x == y <==> t / MILLI == u / MILLI
  {
    StampTextOrder(t, u, 'T', '.');
    StampTextHalves(t, 'T', '.');
    StampTextHalves(u, 'T', '.');
  }

  /** Sorting the printed times as strings sorts them by time: `a <= b` as Python strings, which is
      `not b < a`, says exactly that a's millisecond, in UTC, is not after b's; whatever the offsets. */
  lemma IsoOrderIsTimeOrder(a: Moment, b: Moment)
    requires PrintableAt(InUtc(a)) && PrintableAt(InUtc(b))
    ensures !LexLess(IsoZ(b), IsoZ(a)) <==> InUtc(a) / MILLI <= InUtc(b) / MILLI
    ensures IsoZ(a) == IsoZ(b) <==> InUtc(a) / MILLI == InUtc(b) / MILLI
  {
    var x, y := StampText(InUtc(a), 'T', '.'), StampText(InUtc(b), 'T', '.');
    StampOrder(InUtc(a), InUtc(b), x, y);
    StampOrder(InUtc(b), InUtc(a), y, x);
    SameEnding(x, y);
    SameEnding(y, x);
  }
}
