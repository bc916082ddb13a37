// The one-off move of a plain table into UTC-day partitions, and back. A partitioned table's rows are
// kept with the partition each sits in, as `tableoid` shows it; None is the DEFAULT partition.

module Migration {

  import opened Calendar
  import opened Grains
  import opened Partitioning
  import opened Results
  import opened Sorting

  datatype RawRow = RawRow(id: string, key: Option<Instant>, data: string)

  /** A row of a log table: its key may be NULL, and is an instant a `date` can be taken of otherwise. */
  type Row = r: RawRow | r.key.Some? ==> InCalendar(r.key.value) witness RawRow("", None, "")

  datatype Placed = Placed(partition: Option<Date>, row: Row)

  datatype Storage =
    | Plain(rows: seq<Row>)
    | Partitioned(bounds: set<Date>, placed: seq<Placed>)

  datatype MigrationError =
    | BadSpan(reason: SpanError)
    | NoNextPeriod                             // a day whose period runs past the calendar
    | ShortCopy(copied: nat, expected: nat)

  // ---------------------------------------------------------------- routing

  /** Where PostgreSQL puts a row, given the period starts that have a partition. */
  function Route(grain: Grain, bounds: set<Date>, row: Row): Option<Date> {
    if row.key.Some? && PeriodStart(grain, DayOf(row.key.value)) in bounds
    then Some(PeriodStart(grain, DayOf(row.key.value)))
    else None
  }

  function Routed(grain: Grain, bounds: set<Date>, rows: seq<Row>): seq<Placed> {
    Map(row => Placed(Route(grain, bounds, row), row), rows)
  }

  function Rows(storage: Storage): seq<Row> {
    match storage
    case Plain(rows) => rows
    case Partitioned(_, placed) => Map((p: Placed) => p.row, placed)
  }

  lemma {:induction false} RowsOfRouted(grain: Grain, bounds: set<Date>, rows: seq<Row>)
    ensures Rows(Partitioned(bounds, Routed(grain, bounds, rows))) == rows
  {
    if rows != [] {
      RowsOfRouted(grain, bounds, rows[1..]);
      assert rows == [rows[0]] + rows[1..];
    }
  }

  /** Every keyed row sits in the partition of its UTC day; DEFAULT holds exactly the rows without a key. */
  ghost predicate WellPlaced(grain: Grain, placed: seq<Placed>) {
    forall p | p in placed ::
      p.partition == (if p.row.key.Some? then Some(PeriodStart(grain, DayOf(p.row.key.value))) else None)
  }

  // ---------------------------------------------------------------- the data's own days

  function KeyDays(rows: seq<Row>): (days: seq<Date>) {
    if rows == [] then []
    else (if rows[0].key.Some? then [DayOf(rows[0].key.value)] else []) + KeyDays(rows[1..])
  }

  function Least(days: seq<Date>): (r: Option<Date>)
    ensures r.None? <==> days == []
    ensures forall day | day in days :: Ordinal(r.value) <= Ordinal(day)
  {
    if days == [] then None
    else
      assert days == [days[0]] + days[1..];
      match Least(days[1..])
      case None => Some(days[0])
      case Some(day) => Some(Earlier(days[0], day))
  }

  function Greatest(days: seq<Date>): (r: Option<Date>)
    ensures r.None? <==> days == []
    ensures forall day | day in days :: Ordinal(day) <= Ordinal(r.value)
  {
    if days == [] then None
    else
      assert days == [days[0]] + days[1..];
      match Greatest(days[1..])
      case None => Some(days[0])
      case Some(day) => Some(Later(days[0], day))
  }

  lemma {:induction false} KeyDaysHoldEveryKey(rows: seq<Row>, row: Row)
    requires row in rows && row.key.Some?
    ensures DayOf(row.key.value) in KeyDays(rows)
  {
    if rows[0] != row {
      KeyDaysHoldEveryKey(rows[1..], row);
    }
  }

  /** The days a build over `rows` provisions. */
  function DataDays(rows: seq<Row>, today: Date, ahead: int): Result<seq<Date>, SpanError>
    requires CanAddDays(today, ahead)
  {
    var days := KeyDays(rows);
    MigrationDays(Least(days), Greatest(days), today, ahead, MAX_MIGRATION_SPAN_DAYS)
  }

  lemma DataDaysCoverEveryKey(rows: seq<Row>, today: Date, ahead: int, row: Row)
    requires CanAddDays(today, ahead) && DataDays(rows, today, ahead).Ok?
    requires row in rows && row.key.Some?
    ensures DayOf(row.key.value) in DataDays(rows, today, ahead).value
  {
    var days := KeyDays(rows);
    var day := DayOf(row.key.value);
    KeyDaysHoldEveryKey(rows, row);
    MigrationCoversDataAndRunway(Least(days), Greatest(days), today, ahead, MAX_MIGRATION_SPAN_DAYS, day);
  }

  function Starts(grain: Grain, days: seq<Date>): set<Date> {
    set day | day in days :: PeriodStart(grain, day)
  }

  lemma StartsStep(grain: Grain, days: seq<Date>, i: nat)
    requires i < |days|
    ensures Starts(grain, days[..i + 1]) == Starts(grain, days[..i]) + {PeriodStart(grain, days[i])}
  {
    assert days[..i + 1] == days[..i] + [days[i]];
  }

  lemma {:induction false} RoutedMembers(grain: Grain, bounds: set<Date>, rows: seq<Row>, p: Placed)
    requires p in Routed(grain, bounds, rows)
    ensures p.row in rows && p.partition == Route(grain, bounds, p.row)
  {
    if p != Routed(grain, bounds, rows)[0] {
      RoutedMembers(grain, bounds, rows[1..], p);
    }
  }

  /** The days a build provisions leave none of the table's keyed rows without its partition. */
  lemma ProvisionedDaysPlaceEveryRow(grain: Grain, rows: seq<Row>, brought: seq<Row>, today: Date, ahead: int)
    requires CanAddDays(today, ahead) && DataDays(rows, today, ahead).Ok?
    requires forall row | row in brought :: row in rows
    ensures WellPlaced(grain, Routed(grain, Starts(grain, DataDays(rows, today, ahead).value), brought))
  {
    var days := DataDays(rows, today, ahead).value;
    var bounds := Starts(grain, days);
    forall p | p in Routed(grain, bounds, brought)
      ensures p.partition == (if p.row.key.Some? then Some(PeriodStart(grain, DayOf(p.row.key.value))) else None)
    {
      RoutedMembers(grain, bounds, brought, p);
      if p.row.key.Some? {
        DataDaysCoverEveryKey(rows, today, ahead, p.row);
      }
    }
  }

  /** The copy statement invents no row and copies none twice; it may leave some out, and bring them in any order. */
  ghost predicate Among(brought: seq<Row>, rows: seq<Row>) {
    multiset(brought) <= multiset(rows)
  }

  /** So counting is enough to know that nothing was lost. */
  lemma NothingLostIff(brought: seq<Row>, rows: seq<Row>)
    requires Among(brought, rows)
    ensures |brought| == |rows| <==> multiset(brought) == multiset(rows)
  {
    var missing := multiset(rows) - multiset(brought);
    assert multiset(rows) == multiset(brought) + missing;
    assert |multiset(rows)| == |multiset(brought)| + |missing|;
    assert |missing| == 0 <==> missing == multiset{};
  }

  lemma AmongMembers(brought: seq<Row>, rows: seq<Row>)
    requires Among(brought, rows)
    ensures forall row | row in brought :: row in rows
  {
    forall row | row in brought ensures row in rows {
      assert row in multiset(brought);
      assert row in multiset(rows);
    }
  }

  // ---------------------------------------------------------------- the migration

  function Old(name: string): string { name + "_old" }
  function Part(name: string): string { name + "_part" }

  predicate AllHaveNext(grain: Grain, days: seq<Date>) {
    forall day | day in days :: HasNext(grain, day)
  }

  lemma AllHaveNextStep(grain: Grain, days: seq<Date>, i: nat)
    requires i < |days|
    ensures AllHaveNext(grain, days[..i + 1]) <==> AllHaveNext(grain, days[..i]) && HasNext(grain, days[i])
    ensures AllHaveNext(grain, days) ==> HasNext(grain, days[i])
  {
    assert days[..i + 1] == days[..i] + [days[i]];
  }

  /** What the copy brings across, if its count is that of the rows there were. */
  function Copied(rows: seq<Row>, brought: seq<Row>): Result<seq<Row>, MigrationError> {
    if |brought| != |rows| then Err(ShortCopy(|brought|, |rows|)) else Ok(brought)
  }

  /** `brought` is what the copy statement really brings across of the rows it reads. */
  function PartitionedOf(grain: Grain, rows: seq<Row>, today: Date, ahead: int, brought: seq<Row>)
    : Result<Storage, MigrationError>
    requires CanAddDays(today, ahead)
  {
    LoadedOver(grain, DataDays(rows, today, ahead), rows, brought)
  }

  /** The new table over the days found, loaded with what the copy brings. */
  function LoadedOver(grain: Grain, found: Result<seq<Date>, SpanError>, rows: seq<Row>, brought: seq<Row>)
    : Result<Storage, MigrationError>
  {
    match found
    case Err(reason) => Err(BadSpan(reason))
    case Ok(days) =>
      if !AllHaveNext(grain, days) then Err(NoNextPeriod)
      else match Copied(rows, brought)
        case Err(e) => Err(e)
        case Ok(copied) => Ok(Partitioned(Starts(grain, days), Routed(grain, Starts(grain, days), copied)))
  }

  /** What makes a partitioning go through, and what the one in its way is: a span over ten years or inverted, a day
      without a next period, or a short copy, with both counts. */
  lemma PartitionGoesThroughIff(grain: Grain, rows: seq<Row>, today: Date, ahead: int, brought: seq<Row>)
    requires CanAddDays(today, ahead)
    ensures var days := DataDays(rows, today, ahead); var r := PartitionedOf(grain, rows, today, ahead, brought);
      && (r.Ok? <==> days.Ok? && (forall day | day in days.value :: HasNext(grain, day)) && |brought| == |rows|)
      && (r.Ok? ==>
            && r.value.Partitioned? && Rows(r.value) == brought
            && forall start :: start in r.value.bounds <==> exists day | day in days.value :: PeriodStart(grain, day) == start)
      && (r.Err? && r.error.BadSpan? <==> days.Err?)
      && (r.Err? && r.error.ShortCopy? ==> r.error.copied == |brought| && r.error.expected == |rows|)
      && (r.Err? && r.error.NoNextPeriod? ==> exists day | day in days.value :: !HasNext(grain, day))
  {
    var days := DataDays(rows, today, ahead);
    if days.Ok? {
      RowsOfRouted(grain, Starts(grain, days.value), brought);
    }
  }

  /** More than 3650 days are refused, and otherwise the runway is among those provisioned. */
  lemma DataDaysHoldTheRunway(rows: seq<Row>, today: Date, ahead: int, day: Date)
    requires CanAddDays(today, ahead) && DataDays(rows, today, ahead).Ok?
    ensures |DataDays(rows, today, ahead).value| <= 3650
    ensures Ordinal(today) <= Ordinal(day) <= Ordinal(today) + ahead ==> day in DataDays(rows, today, ahead).value
  {
    var lo, hi := Least(KeyDays(rows)), Greatest(KeyDays(rows));
    MigrationCoversDataAndRunway(lo, hi, today, ahead, MAX_MIGRATION_SPAN_DAYS, day);
  }

  function PlainOf(storage: Storage, brought: seq<Row>): Result<Storage, MigrationError> {
    match Copied(Rows(storage), brought)
    case Err(e) => Err(e)
    case Ok(copied) => Ok(Plain(copied))
  }

  /** A partitioning that goes through has lost no row, whatever the copy left out, and has every row where it
      belongs: keyed rows in the partition of their UTC day, DEFAULT exactly the rows without a key. */
  lemma PartitionLosesAndMisplacesNothing(grain: Grain, rows: seq<Row>, today: Date, ahead: int, brought: seq<Row>)
    requires CanAddDays(today, ahead) && Among(brought, rows)
    ensures var r := PartitionedOf(grain, rows, today, ahead, brought);
      r.Ok? ==> multiset(Rows(r.value)) == multiset(rows) && WellPlaced(grain, r.value.placed)
  {
    var r := PartitionedOf(grain, rows, today, ahead, brought);
    if r.Ok? {
      NothingLostIff(brought, rows);
      AmongMembers(brought, rows);
      RowsOfRouted(grain, r.value.bounds, brought);
      ProvisionedDaysPlaceEveryRow(grain, rows, brought, today, ahead);
    }
  }

  /** Going back returns the rows the table holds by then, all of them. */
  lemma UnpartitionLosesNothing(storage: Storage, brought: seq<Row>)
    requires Among(brought, Rows(storage))
    ensures var r := PlainOf(storage, brought);
      r.Ok? ==> r.value.Plain? && multiset(Rows(r.value)) == multiset(Rows(storage))
  {
    NothingLostIff(brought, Rows(storage));
  }

  /** Up and down again: the original rows, with their multiplicities, unless the way down is refused for a short copy. */
  lemma RoundTrip(grain: Grain, rows: seq<Row>, today: Date, ahead: int, up: seq<Row>, down: seq<Row>)
    requires CanAddDays(today, ahead) && Among(up, rows) && PartitionedOf(grain, rows, today, ahead, up).Ok?
    requires Among(down, Rows(PartitionedOf(grain, rows, today, ahead, up).value))
    ensures var back := PlainOf(PartitionedOf(grain, rows, today, ahead, up).value, down);
      && (back.Ok? <==> |down| == |rows|)
      && (back.Ok? ==> back.value.Plain? && multiset(back.value.rows) == multiset(rows))
  {
    var storage := PartitionedOf(grain, rows, today, ahead, up).value;
    PartitionLosesAndMisplacesNothing(grain, rows, today, ahead, up);
    RowsOfRouted(grain, storage.bounds, up);
    UnpartitionLosesNothing(storage, down);
  }

  /** Moved aside, built anew under its name, and the old one dropped: only the one table has changed. */
  lemma SetAsideAndBack(before: map<string, Storage>, name: string, source: string, storage: Storage)
    requires name in before && source !in before
    ensures (before - {name})[source := before[name]][name := storage] - {source} == before[name := storage]
  {
  }

  class Schema {
    var tables: map<string, Storage>

    method Rename(from: string, to: string)
      requires from in tables && to !in tables
      modifies this
      ensures tables == (old(tables) - {from})[to := old(tables)[from]]
    {
      tables := (tables - {from})[to := tables[from]];
    }

    method Drop(name: string)
      modifies this
      ensures tables == old(tables) - {name}
    {
      tables := tables - {name};
    }

    /** One `CREATE TABLE IF NOT EXISTS .. PARTITION OF` per day, while the DEFAULT partition is empty. */
    method CreatePartitions(name: string, grain: Grain, days: seq<Date>) returns (ok: bool)
      requires name in tables && tables[name] == Partitioned({}, [])
      modifies this
      ensures ok <==> AllHaveNext(grain, days)
      ensures ok ==> tables == old(tables)[name := Partitioned(Starts(grain, days), [])]
    {
      var bounds: set<Date> := {};
      for i := 0 to |days|
        invariant AllHaveNext(grain, days[..i])
        invariant bounds == Starts(grain, days[..i])
        invariant tables == old(tables)
      {
        StartsStep(grain, days, i);
        AllHaveNextStep(grain, days, i);
        if !HasNext(grain, days[i]) {
          return false;
        }
        bounds := bounds + {PeriodStart(grain, days[i])};
      }
      assert days[..|days|] == days;
      tables := tables[name := Partitioned(bounds, [])];
      return true;
    }

    /** `INSERT INTO name SELECT * FROM ..`: `rows` is what the copy really brings across, and the result is the
        number of rows it reports. */
    method CopyInto(name: string, grain: Grain, rows: seq<Row>) returns (copied: nat)
      requires name in tables && Rows(tables[name]) == []
      modifies this
      ensures copied == |rows|
      ensures tables == old(tables)[name :=
        match old(tables)[name]
        case Plain(_) => Plain(rows)
        case Partitioned(bounds, _) => Partitioned(bounds, Routed(grain, bounds, rows))]
    {
      copied := |rows|;
      match tables[name] {
        case Plain(_) => tables := tables[name := Plain(rows)];
        case Partitioned(bounds, _) =>
          var placed := RouteAll(grain, bounds, rows);
          tables := tables[name := Partitioned(bounds, placed)];
      }
    }

    method RouteAll(grain: Grain, bounds: set<Date>, rows: seq<Row>) returns (placed: seq<Placed>)
      ensures placed == Routed(grain, bounds, rows)
    {
      placed := [];
      for i := 0 to |rows|
        invariant placed == Routed(grain, bounds, rows[..i])
      {
        var f := row => Placed(Route(grain, bounds, row), row);
        assert rows[..i + 1] == rows[..i] + [rows[i]];
        MapAppend(f, rows[..i], [rows[i]]);
        placed := placed + [Placed(Route(grain, bounds, rows[i]), rows[i])];
      }
      assert rows[..|rows|] == rows;
    }

    /** Partitions for the days found in the new parent, and the load. */
    method Fill(name: string, grain: Grain, found: Result<seq<Date>, SpanError>, rows: seq<Row>, brought: seq<Row>)
      returns (r: Result<nat, MigrationError>)
      requires name in tables && tables[name] == Partitioned({}, [])
      modifies this
      ensures match LoadedOver(grain, found, rows, brought)
        case Err(e) => r == Err(e)
        case Ok(storage) => r == Ok(|rows|) && tables == old(tables)[name := storage]
    {
      if found.Err? {
        return Err(BadSpan(found.error));
      }
      var ok := CreatePartitions(name, grain, found.value);
      if !ok {
        return Err(NoNextPeriod);
      }
      var copied := CopyInto(name, grain, brought);
      if copied != |rows| {
        return Err(ShortCopy(copied, |rows|));
      }
      return Ok(copied);
    }

    /** The steps of `_partition` over the days found in the table's rows; what a failure leaves is rolled back. */
    method Move(name: string, source: string, grain: Grain, found: Result<seq<Date>, SpanError>, brought: seq<Row>)
      returns (r: Result<nat, MigrationError>)
      requires name in tables && tables[name].Plain? && source !in tables
      modifies this
      ensures match LoadedOver(grain, found, old(tables)[name].rows, brought)
        case Err(e) => r == Err(e)
        case Ok(storage) => r == Ok(|old(tables)[name].rows|) && tables == old(tables)[name := storage]
    {
      ghost var before := tables;
      Rename(name, source);
      tables := tables[name := Partitioned({}, [])];
      r := Fill(name, grain, found, Rows(tables[source]), brought);
      if r.Ok? {
        SetAsideAndBack(before, name, source, tables[name]);
        Drop(source);
      }
    }

    /** `_partition` of a table into partitions of `grain`: all of it or, in one transaction, nothing. */
    method Partition(name: string, grain: Grain, today: Date, ahead: int, brought: seq<Row>)
      returns (r: Result<nat, MigrationError>)
      requires name in tables && tables[name].Plain?
      requires Old(name) !in tables && CanAddDays(today, ahead)
      requires Among(brought, tables[name].rows)
      modifies this
      ensures var rows := old(tables)[name].rows;
        match PartitionedOf(grain, rows, today, ahead, brought)
        case Err(e) => r == Err(e) && tables == old(tables)
        case Ok(storage) =>
          && r == Ok(|rows|) && tables == old(tables)[name := storage]
          && multiset(Rows(storage)) == multiset(rows) && WellPlaced(grain, storage.placed)
    {
      var before := tables;
      PartitionLosesAndMisplacesNothing(grain, tables[name].rows, today, ahead, brought);
      var days := DataDays(tables[name].rows, today, ahead);
      r := Move(name, Old(name), grain, days, brought);
      if r.Err? {
        tables := before;
      }
    }

    /** `_unpartition`: the partitions collapsed into a plain table again. */
    method Unpartition(name: string, grain: Grain, brought: seq<Row>) returns (r: Result<nat, MigrationError>)
      requires name in tables && Part(name) !in tables
      requires Among(brought, Rows(tables[name]))
      modifies this
      ensures var rows := Rows(old(tables)[name]);
        match PlainOf(old(tables)[name], brought)
        case Err(e) => r == Err(e) && tables == old(tables)
        case Ok(storage) =>
          && r == Ok(|rows|) && tables == old(tables)[name := storage]
          && storage.Plain? && multiset(storage.rows) == multiset(rows)
    {
      var before := tables;
      UnpartitionLosesNothing(tables[name], brought);
      Rename(name, Part(name));
      tables := tables[name := Plain([])];
      var source := Rows(tables[Part(name)]);
      var expected := |source|;
      var copied := CopyInto(name, grain, brought);
      if copied != expected {
        tables := before;
        return Err(ShortCopy(copied, expected));
      }
      Drop(Part(name));
      return Ok(copied);
    }
  }
}
