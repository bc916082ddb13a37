// How far each incremental reader has consumed, and what that forbids retention to drop.

module Cursors {

  import opened Calendar
  import opened Grains
  import opened Results
  import opened Sorting

  /** `position`: everything strictly before it is consumed. `updatedAt`: the heartbeat. */
  datatype Cursor = Cursor(position: Instant, updatedAt: Instant)

  datatype Row = Row(consumer: string, cursor: Cursor)

  const SECOND: int := 1_000_000

  /** A partition whose EXCLUSIVE upper bound is `end` must be kept. */
  predicate BlocksUntil(end: Instant, minPosition: Option<Instant>) {
    minPosition.Some? && minPosition.value < end
  }

  /** This UTC day must be kept. */
  predicate Blocks(day: Date, minPosition: Option<Instant>)
    requires HasNext(Daily, day)
  {
    OrdinalBounds(day);
    BlocksUntil(DayStart(AddDays(day, 1)), minPosition)
  }

  predicate IsLive(updatedAt: Instant, now: Instant, staleAfter: int) {
    now - updatedAt <= staleAfter * SECOND
  }

  function LiveRow(now: Instant, staleAfter: int): Row -> bool {
    (row: Row) => IsLive(row.cursor.updatedAt, now, staleAfter)
  }

  function StaleRow(now: Instant, staleAfter: int): Row -> bool {
    (row: Row) => !IsLive(row.cursor.updatedAt, now, staleAfter)
  }

  /** At every grain a period is held at its end exactly when one of its days is. */
  lemma PeriodIsBlockedByItsDays(grain: Grain, start: Date, minPosition: Option<Instant>)
    requires HasNext(grain, start)
    ensures BlocksUntil(DayStart(NextPeriodStart(grain, start)), minPosition)
       <==> exists day: Date | PeriodStart(grain, day) == PeriodStart(grain, start) ::
              HasNext(Daily, day) && Blocks(day, minPosition)
  {
    var next := NextPeriodStart(grain, start);
    var end := PeriodEnd(grain, start);
    OrdinalBounds(next);
    NextIsAfter(grain, start);
    StartIsBefore(grain, start);
    PeriodIsInterval(grain, start, end);
    OrdinalIsOrder(next, AddDays(end, 1));
    if BlocksUntil(DayStart(next), minPosition) {
      assert PeriodStart(grain, end) == PeriodStart(grain, start) && HasNext(Daily, end) && Blocks(end, minPosition);
    }
    if day: Date :| PeriodStart(grain, day) == PeriodStart(grain, start) && HasNext(Daily, day) && Blocks(day, minPosition) {
      PeriodIsInterval(grain, start, day);
    }
  }

  /** One pass: each row goes to exactly one of the two lists, in order. */
  method SplitByLiveness(rows: seq<Row>, now: Instant, staleAfter: int) returns (live: seq<Row>, stale: seq<Row>)
    ensures live == Filter(LiveRow(now, staleAfter), rows)
    ensures stale == Filter(StaleRow(now, staleAfter), rows)
    ensures forall row :: row in live <==> row in rows && now <= row.cursor.updatedAt + staleAfter * 1_000_000
    ensures forall row :: row in stale <==> row in rows && now > row.cursor.updatedAt + staleAfter * 1_000_000
  {
    live, stale := [], [];
    for i := 0 to |rows|
      invariant live == Filter(LiveRow(now, staleAfter), rows[..i])
      invariant stale == Filter(StaleRow(now, staleAfter), rows[..i])
    {
      assert rows[..i + 1] == rows[..i] + [rows[i]];
      FilterAppend(LiveRow(now, staleAfter), rows[..i], [rows[i]]);
      FilterAppend(StaleRow(now, staleAfter), rows[..i], [rows[i]]);
      if IsLive(rows[i].cursor.updatedAt, now, staleAfter) {
        live := live + [rows[i]];
      } else {
        stale := stale + [rows[i]];
      }
    }
    assert rows[..|rows|] == rows;
    FilterMembers(LiveRow(now, staleAfter), rows);
    FilterMembers(StaleRow(now, staleAfter), rows);
  }

  /** `m` is the oldest position among the consumers still reporting; None when there are none. */
  ghost predicate IsMinLive(cursors: map<string, Cursor>, now: Instant, staleAfter: int, m: Option<Instant>) {
    && (forall c | c in cursors && IsLive(cursors[c].updatedAt, now, staleAfter) ::
          m.Some? && m.value <= cursors[c].position)
    && (m.Some? ==> exists c | c in cursors ::
          IsLive(cursors[c].updatedAt, now, staleAfter) && cursors[c].position == m.value)
  }

  lemma MinLiveIsUnique(cursors: map<string, Cursor>, now: Instant, staleAfter: int, m: Option<Instant>, n: Option<Instant>)
    requires IsMinLive(cursors, now, staleAfter, m) && IsMinLive(cursors, now, staleAfter, n)
    ensures m == n
  {
  }

  /** The query result lists the registry, one row per consumer. */
  ghost predicate Lists(rows: seq<Row>, cursors: map<string, Cursor>) {
    && (forall row | row in rows :: row.consumer in cursors && cursors[row.consumer] == row.cursor)
    && (forall c | c in cursors :: Row(c, cursors[c]) in rows)
  }

  method MinPosition(rows: seq<Row>) returns (m: Option<Instant>)
    ensures m.None? <==> rows == []
    ensures m.Some? ==> exists row | row in rows :: row.cursor.position == m.value
    ensures forall row | row in rows :: m.Some? && m.value <= row.cursor.position
  {
    m := None;
    for i := 0 to |rows|
      invariant m.None? <==> i == 0
      invariant m.Some? ==> exists row | row in rows[..i] :: row.cursor.position == m.value
      invariant forall row | row in rows[..i] :: m.Some? && m.value <= row.cursor.position
    {
      assert rows[..i + 1] == rows[..i] + [rows[i]];
      if m.None? || rows[i].cursor.position < m.value {
        m := Some(rows[i].cursor.position);
        assert rows[i] in rows[..i + 1];
      }
    }
    assert rows[..|rows|] == rows;
  }

  class Registry {
    var cursors: map<string, Cursor>

    /** Upsert: one row per consumer, forever. */
    method Report(consumer: string, position: Instant, now: Instant)
      modifies this
      ensures cursors == old(cursors)[consumer := Cursor(position, now)]
    {
      cursors := cursors[consumer := Cursor(position, now)];
    }

    method MinLivePosition(rows: seq<Row>, now: Instant, staleAfter: int) returns (m: Option<Instant>)
      requires Lists(rows, cursors)
      ensures IsMinLive(cursors, now, staleAfter, m)
    {
      var live, stale := SplitByLiveness(rows, now, staleAfter);
      FilterMembers(LiveRow(now, staleAfter), rows);
      m := MinPosition(live);
      forall c | c in cursors && IsLive(cursors[c].updatedAt, now, staleAfter)
        ensures m.Some? && m.value <= cursors[c].position
      {
        assert Row(c, cursors[c]) in live;
      }
      if m.Some? {
        var row :| row in live && row.cursor.position == m.value;
        assert row in rows;
      }
    }
  }
}
