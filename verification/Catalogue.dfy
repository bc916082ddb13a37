// The partition catalogue and the method that extends it. A relation is found by its NAME, as
// `to_regclass` finds it; its bounds are what PostgreSQL routes on.

module Catalogue {

  import opened Calendar
  import opened DateText
  import opened Grains
  import opened PartitionNames
  import opened Results
  import opened Sorting

  datatype Relation =
    | Parent(table: Table)
    | DefaultOf(table: Table)
    | Dated(table: Table, from: Date, to: Date)   // holds the days from <= day < to
    | Unrelated

  type Relations = map<string, Relation>

  /** What the DDL for the period of `day` creates. */
  function PartitionFor(table: Table, day: Date): Relation
    requires HasNext(GrainOf(table), day)
  {
    var start := PeriodStart(GrainOf(table), day);
    StartsAreStarts(GrainOf(table), day);
    Dated(table, start, NextPeriodStart(GrainOf(table), start))
  }

  /** Every relation is what its name says it is; nothing else carries a partition's name. */
  ghost predicate WellNamed(name: string, r: Relation) {
    match r
    case Parent(table) => name == TableName(table)
    case DefaultOf(table) => name == DefaultPartitionName(table)
    case Dated(table, from, to) =>
      && Printable(from) && IsStart(GrainOf(table), from) && HasNext(GrainOf(table), from)
      && name == PartitionName(table, from)
      && r == PartitionFor(table, from)
    case Unrelated => !MatchesPattern(name)
  }

  ghost predicate Consistent(relations: Relations) {
    forall name | name in relations :: WellNamed(name, relations[name])
  }

  predicate Holds(r: Relation, table: Table, day: Date) {
    r.Dated? && r.table == table && Ordinal(r.from) <= Ordinal(day) < Ordinal(r.to)
  }

  /** Existence by name is right: whatever has a partition's name IS that partition. */
  lemma NameIsIdentity(relations: Relations, table: Table, day: Date)
    requires Consistent(relations) && Printable(day) && HasNext(GrainOf(table), day)
    requires PartitionName(table, day) in relations
    ensures relations[PartitionName(table, day)] == PartitionFor(table, day)
  {
    var name := PartitionName(table, day);
    assert WellNamed(name, relations[name]);
    PatternMatchesOurPartitions(table, day);
    match relations[name]
    case Parent(other) => PatternSparesParents(other);
    case DefaultOf(other) => DefaultIsNotDated(other, table, day);
    case Dated(other, from, to) => PartitionNamesAreInjective(other, from, table, day);
    case Unrelated =>
  }

  lemma DefaultIsNotDated(other: Table, table: Table, day: Date)
    requires Printable(day)
    ensures DefaultPartitionName(other) != PartitionName(table, day)
  {
    DecodeOfPartitionName(table, day);
    DefaultNameDoesNotDecode(other);
  }

  lemma PartitionForHoldsItsDay(table: Table, day: Date)
    requires HasNext(GrainOf(table), day)
    ensures Holds(PartitionFor(table, day), table, day)
  {
    PeriodIsInterval(GrainOf(table), day, day);
    StartsAreStarts(GrainOf(table), day);
  }

  lemma NamedPartitionHoldsItsDay(relations: Relations, table: Table, day: Date)
    requires Consistent(relations) && Printable(day) && HasNext(GrainOf(table), day)
    requires PartitionName(table, day) in relations
    ensures Holds(relations[PartitionName(table, day)], table, day)
  {
    NameIsIdentity(relations, table, day);
    PartitionForHoldsItsDay(table, day);
  }

  lemma HoldingPartitionHasTheName(name: string, r: Relation, table: Table, day: Date)
    requires WellNamed(name, r) && Holds(r, table, day) && Printable(day)
    ensures name == PartitionName(table, day)
  {
    PeriodIsInterval(GrainOf(table), r.from, day);
    PartitionNamesAreInjective(table, r.from, table, day);
  }

  /** The dated partitions of a table are pairwise disjoint: one name holds a given day, if any. */
  lemma OnePartitionPerDay(relations: Relations, table: Table, day: Date, name: string)
    requires Consistent(relations) && Printable(day) && HasNext(GrainOf(table), day)
    requires name in relations
    ensures Holds(relations[name], table, day) <==> name == PartitionName(table, day)
  {
    if name == PartitionName(table, day) {
      NamedPartitionHoldsItsDay(relations, table, day);
    }
    if Holds(relations[name], table, day) {
      assert WellNamed(name, relations[name]);
      HoldingPartitionHasTheName(name, relations[name], table, day);
    }
  }

  lemma PartitionsAreDisjoint(relations: Relations, a: string, b: string)
    requires Consistent(relations) && a in relations && b in relations && a != b
    requires relations[a].Dated? && relations[b].Dated? && relations[a].table == relations[b].table
    ensures || Ordinal(relations[a].to) <= Ordinal(relations[b].from)
            || Ordinal(relations[b].to) <= Ordinal(relations[a].from)
  {
    assert WellNamed(a, relations[a]) && WellNamed(b, relations[b]);
    PeriodsAreDisjoint(GrainOf(relations[a].table), relations[a].from, relations[b].from);
  }

  // ---------------------------------------------------------------- what a request adds

  predicate Ready(table: Table, day: Date) {
    Printable(day) && HasNext(GrainOf(table), day)
  }

  ghost predicate AllReady(tables: seq<Table>, days: seq<Date>) {
    forall table, day | table in tables && day in days :: Ready(table, day)
  }

  datatype RawPeriod = RawPeriod(table: Table, start: Date)

  type Period = p: RawPeriod | Ready(p.table, p.start) && IsStart(GrainOf(p.table), p.start)
    witness RawPeriod(AnalyticsDailyRollups, RawDate(2026, 1, 1))

  function NameOf(p: Period): string {
    PartitionName(p.table, p.start)
  }

  function RelationOf(p: Period): Relation {
    PartitionFor(p.table, p.start)
  }

  /** The period of `table` that `day` falls in. */
  function PeriodOf(table: Table, day: Date): (p: Period)
    requires Ready(table, day)
    ensures NameOf(p) == PartitionName(table, day) && RelationOf(p) == PartitionFor(table, day)
  {
    StartsAreStarts(GrainOf(table), day);
    RawPeriod(table, PeriodStart(GrainOf(table), day))
  }

  function PeriodsOf(table: Table, days: seq<Date>): (r: seq<Period>)
    requires forall d | d in days :: Ready(table, d)
    ensures forall p :: p in r <==> exists d | d in days :: PeriodOf(table, d) == p
  {
    if days == [] then [] else
      assert days[0] in days;
      var rest := PeriodsOf(table, days[1..]);
      assert days == [days[0]] + days[1..];
      [PeriodOf(table, days[0])] + rest
  }

  function ByStart(): (Period, Period) -> bool {
    (a: Period, b: Period) => Ordinal(a.start) <= Ordinal(b.start)
  }

  /** `sorted({period_start(grain, d) for d in days})`, as periods of `table`. */
  function SortedPeriods(table: Table, days: seq<Date>): seq<Period>
    requires forall d | d in days :: Ready(table, d)
  {
    StableSort(ByStart(), Distinct(PeriodsOf(table, days)))
  }

  lemma SortedPeriodsAreExact(table: Table, days: seq<Date>)
    requires forall d | d in days :: Ready(table, d)
    ensures forall p :: p in SortedPeriods(table, days) <==> exists d | d in days :: PeriodOf(table, d) == p
    ensures SortedBy(ByStart(), SortedPeriods(table, days)) && NoDuplicates(SortedPeriods(table, days))
    ensures forall i, j | 0 <= i < j < |SortedPeriods(table, days)| ::
      Ordinal(SortedPeriods(table, days)[i].start) <= Ordinal(SortedPeriods(table, days)[j].start)
  {
    var periods := PeriodsOf(table, days);
    SortedDistinct(ByStart(), periods);
    forall p ensures p in SortedPeriods(table, days) <==> exists d | d in days :: PeriodOf(table, d) == p {
      assert p in SortedPeriods(table, days) <==> p in periods;
    }
  }

  function AllPeriods(tables: seq<Table>, days: seq<Date>): seq<Period>
    requires AllReady(tables, days)
  {
    if tables == [] then []
    else
      var last := tables[|tables| - 1];
      assert forall d | d in days :: Ready(last, d);
      AllPeriods(tables[..|tables| - 1], days) + SortedPeriods(last, days)
  }

  lemma {:induction false} AllPeriodsAreExact(tables: seq<Table>, days: seq<Date>)
    requires AllReady(tables, days)
    ensures forall table, day | table in tables && day in days ::
      Ready(table, day) && PeriodOf(table, day) in AllPeriods(tables, days)
    ensures forall p | p in AllPeriods(tables, days) ::
      p.table in tables && exists day | day in days :: Ready(p.table, day) && PeriodOf(p.table, day) == p
  {
    if tables != [] {
      var front, last := tables[..|tables| - 1], tables[|tables| - 1];
      AllPeriodsAreExact(front, days);
      assert tables == front + [last];
      assert forall d | d in days :: Ready(last, d);
      SortedPeriodsAreExact(last, days);
    }
  }

  lemma PeriodsOfOneTable(tables: seq<Table>, days: seq<Date>, i: nat)
    requires AllReady(tables, days) && i < |tables|
    ensures forall d | d in days :: Ready(tables[i], d)
    ensures forall p | p in SortedPeriods(tables[i], days) :: p in AllPeriods(tables, days)
  {
    assert forall d | d in days :: Ready(tables[i], d);
    AllPeriodsAreExact(tables, days);
    SortedPeriodsAreExact(tables[i], days);
  }

  /** The partitions that a request for `days` asks of `tables`, by name. */
  function Added(tables: seq<Table>, days: seq<Date>): Relations
    requires AllReady(tables, days)
  {
    MapOf(AllPeriods(tables, days), NameOf, RelationOf)
  }

  /** A request asks for exactly the partitions of its days, each under its own name and bounds. */
  lemma AddedIsExact(tables: seq<Table>, days: seq<Date>)
    requires AllReady(tables, days)
    ensures forall table, day | table in tables && day in days ::
      Ready(table, day) && PartitionName(table, day) in Added(tables, days)
    ensures forall name | name in Added(tables, days) ::
      exists table, day | table in tables && day in days ::
        Ready(table, day) && name == PartitionName(table, day)
        && Added(tables, days)[name] == PartitionFor(table, day)
  {
    AllPeriodsAreExact(tables, days);
    MapOfIsExact(AllPeriods(tables, days), NameOf, RelationOf);
    forall table, day | table in tables && day in days
      ensures Ready(table, day) && PartitionName(table, day) in Added(tables, days)
    {
      assert NameOf(PeriodOf(table, day)) in Added(tables, days);
    }
    forall name | name in Added(tables, days)
      ensures exists table, day | table in tables && day in days ::
        Ready(table, day) && name == PartitionName(table, day)
        && Added(tables, days)[name] == PartitionFor(table, day)
    {
      var p :| p in AllPeriods(tables, days) && NameOf(p) == name && RelationOf(p) == Added(tables, days)[name];
      var day :| day in days && Ready(p.table, day) && PeriodOf(p.table, day) == p;
    }
  }

  lemma PeriodIsWellNamed(p: Period)
    ensures WellNamed(NameOf(p), RelationOf(p))
  {
  }

  lemma {:induction false} AddingKeepsConsistent(before: Relations, periods: seq<Period>)
    requires Consistent(before)
    ensures Consistent(MapOf(periods, NameOf, RelationOf) + before)
  {
    var added := MapOf(periods, NameOf, RelationOf);
    MapOfIsExact(periods, NameOf, RelationOf);
    forall name | name in added + before ensures WellNamed(name, (added + before)[name]) {
      if name in before {
        assert WellNamed(name, before[name]);
      } else {
        var p :| p in periods && NameOf(p) == name && RelationOf(p) == added[name];
        PeriodIsWellNamed(p);
      }
    }
  }

  /** Provisioning keeps the catalogue consistent and removes or changes nothing. */
  lemma ProvisioningKeepsConsistent(before: Relations, tables: seq<Table>, days: seq<Date>)
    requires Consistent(before) && AllReady(tables, days)
    ensures Consistent(Added(tables, days) + before)
    ensures forall name | name in before ::
      name in Added(tables, days) + before && (Added(tables, days) + before)[name] == before[name]
  {
    AddingKeepsConsistent(before, AllPeriods(tables, days));
  }

  /** Asking twice adds nothing the second time. */
  lemma SecondRequestAddsNothing(before: Relations, tables: seq<Table>, days: seq<Date>)
    requires AllReady(tables, days)
    ensures Added(tables, days) + (Added(tables, days) + before) == Added(tables, days) + before
  {
  }

  /** Afterwards each requested day lies in exactly one dated partition of each selected table. */
  lemma RequestedDaysAreHeldOnce(before: Relations, tables: seq<Table>, days: seq<Date>, table: Table, day: Date)
    requires Consistent(before) && AllReady(tables, days)
    requires table in tables && day in days
    ensures Ready(table, day) && PartitionName(table, day) in Added(tables, days) + before
    ensures forall name | name in Added(tables, days) + before ::
      Holds((Added(tables, days) + before)[name], table, day) <==> name == PartitionName(table, day)
  {
    ProvisioningKeepsConsistent(before, tables, days);
    AddedIsExact(tables, days);
    DayIsHeldOnce(Added(tables, days) + before, table, day);
  }

  lemma DayIsHeldOnce(now: Relations, table: Table, day: Date)
    requires Consistent(now) && Ready(table, day)
    ensures forall name | name in now :: Holds(now[name], table, day) <==> name == PartitionName(table, day)
  {
    forall name | name in now
      ensures Holds(now[name], table, day) <==> name == PartitionName(table, day)
    {
      OnePartitionPerDay(now, table, day, name);
    }
  }

  // ---------------------------------------------------------------- the worker's and the build's half

  datatype CoverageError = UnknownTable(name: string)

  /** For each table, the UTC days of the keyed rows its DEFAULT partition holds. */
  type Strays = map<Table, set<Date>>

  /** PostgreSQL refuses a partition whose rows DEFAULT already holds. */
  predicate DefaultIsClear(strays: Strays, p: Period) {
    p.table in strays ==> forall day | day in strays[p.table] :: PeriodStart(GrainOf(p.table), day) != p.start
  }

  /** The period exists already, or DEFAULT lets it be created. */
  predicate CanStart(relations: Relations, strays: Strays, p: Period) {
    NameOf(p) in relations || DefaultIsClear(strays, p)
  }

  /** A partition is refused exactly when its name is free and DEFAULT holds a row of one of its days. */
  lemma CanStartIff(relations: Relations, strays: Strays, p: Period)
    ensures CanStart(relations, strays, p) <==>
      || NameOf(p) in relations
      || p.table !in strays || forall day | day in strays[p.table] :: !Holds(RelationOf(p), p.table, day)
  {
    StartIsBefore(GrainOf(p.table), p.start);
    forall day: Date
      ensures Holds(RelationOf(p), p.table, day) <==> PeriodStart(GrainOf(p.table), day) == p.start
    {
      PeriodIsInterval(GrainOf(p.table), p.start, day);
    }
  }

  predicate AllCanStart(relations: Relations, strays: Strays, periods: seq<Period>) {
    forall p | p in periods :: CanStart(relations, strays, p)
  }

  lemma StillCanStart(before: Relations, now: Relations, strays: Strays, periods: seq<Period>, j: nat)
    requires AllCanStart(before, strays, periods) && before.Keys <= now.Keys && j < |periods|
    ensures CanStart(now, strays, periods[j])
  {
    assert CanStart(before, strays, periods[j]);
  }

  lemma AllStillCanStart(before: Relations, now: Relations, strays: Strays, periods: seq<Period>, some: seq<Period>)
    requires AllCanStart(before, strays, periods) && before.Keys <= now.Keys
    requires forall p | p in some :: p in periods
    ensures AllCanStart(now, strays, some)
  {
    forall p | p in some ensures CanStart(now, strays, p) {
      assert CanStart(before, strays, p);
    }
  }

  /** The catalogue with a partition for the period, unless its name is taken. */
  function WithPeriod(relations: Relations, p: Period): Relations {
    map[NameOf(p) := RelationOf(p)] + relations
  }

  lemma WithPeriodCount(relations: Relations, p: Period)
    ensures NameOf(p) in relations ==> WithPeriod(relations, p) == relations
    ensures NameOf(p) !in relations ==> WithPeriod(relations, p) == relations[NameOf(p) := RelationOf(p)]
    ensures |WithPeriod(relations, p)| == |relations| + if NameOf(p) in relations then 0 else 1
  {
    assert WithPeriod(relations, p).Keys == relations.Keys + {NameOf(p)};
  }

  function Grown(before: Relations, periods: seq<Period>): Relations {
    Fold(WithPeriod, before, periods)
  }

  lemma {:induction false} GrownKeepsNames(before: Relations, periods: seq<Period>)
    ensures before.Keys <= Grown(before, periods).Keys
  {
    if periods != [] {
      GrownKeepsNames(before, periods[..|periods| - 1]);
    }
  }

  lemma {:induction false} GrownIsMapOf(before: Relations, periods: seq<Period>)
    ensures Grown(before, periods) == MapOf(periods, NameOf, RelationOf) + before
  {
    if periods != [] {
      GrownIsMapOf(before, periods[..|periods| - 1]);
    }
  }

  lemma NextTableCanStart(before: Relations, strays: Strays, tables: seq<Table>, days: seq<Date>, i: nat)
    requires AllReady(tables, days) && i < |tables|
    requires AllCanStart(before, strays, AllPeriods(tables, days))
    ensures forall d | d in days :: Ready(tables[i], d)
    ensures AllCanStart(Grown(before, AllPeriods(tables[..i], days)), strays, SortedPeriods(tables[i], days))
  {
    PeriodsOfOneTable(tables, days, i);
    var grown := Grown(before, AllPeriods(tables[..i], days));
    GrownKeepsNames(before, AllPeriods(tables[..i], days));
    AllStillCanStart(before, grown, strays, AllPeriods(tables, days), SortedPeriods(tables[i], days));
  }

  lemma OneMoreTable(before: Relations, tables: seq<Table>, days: seq<Date>, i: nat)
    requires AllReady(tables, days) && i < |tables|
    ensures forall d | d in days :: Ready(tables[i], d)
    ensures Grown(before, AllPeriods(tables[..i + 1], days))
         == Grown(Grown(before, AllPeriods(tables[..i], days)), SortedPeriods(tables[i], days))
  {
    assert tables[..i + 1][..i] == tables[..i] && tables[..i + 1][i] == tables[i];
    assert forall d | d in days :: Ready(tables[i], d);
    FoldAppend(WithPeriod, before, AllPeriods(tables[..i], days), SortedPeriods(tables[i], days));
  }

  lemma AllTablesAreCovered(before: Relations, tables: seq<Table>, days: seq<Date>)
    requires Consistent(before) && AllReady(tables, days)
    ensures Grown(before, AllPeriods(tables[..|tables|], days)) == Added(tables, days) + before
    ensures Consistent(Added(tables, days) + before)
  {
    assert tables[..|tables|] == tables;
    GrownIsMapOf(before, AllPeriods(tables, days));
    ProvisioningKeepsConsistent(before, tables, days);
  }

  /** The tables of the names, if every name is registered. */
  function Named(names: seq<string>): Option<seq<Table>> {
    Each(Lookup, names)
  }

  function Selection(names: Option<seq<string>>): Option<seq<Table>> {
    if names.None? then Some(PARTITIONED) else Named(names.value)
  }

  class Database {
    var relations: Relations
    var strayDays: Strays

    ghost predicate Valid()
      reads this
    {
      Consistent(relations)
    }

    predicate PartitionExists(p: Period)
      reads this
    {
      NameOf(p) in relations
    }

    /** `CREATE TABLE IF NOT EXISTS <name> PARTITION OF <table> FOR VALUES FROM .. TO ..`. */
    method CreatePartition(p: Period)
      requires CanStart(relations, strayDays, p)
      modifies this`relations
      ensures relations == WithPeriod(old(relations), p)
      ensures |relations| == |old(relations)| + if old(PartitionExists(p)) then 0 else 1
    {
      WithPeriodCount(relations, p);
      if !PartitionExists(p) {
        relations := relations[NameOf(p) := RelationOf(p)];
      }
    }

    /** Skip a period whose name is there; create it otherwise. */
    method CreateIfMissing(p: Period) returns (made: nat)
      requires CanStart(relations, strayDays, p)
      modifies this`relations
      ensures relations == WithPeriod(old(relations), p)
      ensures |relations| == |old(relations)| + made
    {
      if PartitionExists(p) {
        WithPeriodCount(relations, p);
        made := 0;
      } else {
        CreatePartition(p);
        made := 1;
      }
    }

    predicate Creatable(tables: seq<Table>, days: seq<Date>)
      requires AllReady(tables, days)
      reads this
    {
      AllCanStart(relations, strayDays, AllPeriods(tables, days))
    }

    /** One table's periods, oldest first: create those whose name is not there yet. */
    method CoverPeriods(periods: seq<Period>) returns (created: nat)
      requires AllCanStart(relations, strayDays, periods)
      modifies this`relations
      ensures relations == Grown(old(relations), periods)
      ensures created == |relations| - |old(relations)|
    {
      created := 0;
      ghost var before := relations;
      for j := 0 to |periods|
        invariant relations == Grown(before, periods[..j])
        invariant created == |relations| - |before|
      {
        GrownKeepsNames(before, periods[..j]);
        StillCanStart(before, relations, strayDays, periods, j);
        var made := CreateIfMissing(periods[j]);
        created := created + made;
        FoldStep(WithPeriod, before, periods, j);
      }
      assert periods[..|periods|] == periods;
    }

    /** Create any missing partition covering `days`; returns how many were created. */
    method EnsureCoverage(days: seq<Date>, tables: seq<Table>) returns (created: nat)
      requires Valid() && AllReady(tables, days) && Creatable(tables, days)
      modifies this`relations
      ensures Valid()
      ensures relations == Added(tables, days) + old(relations)
      ensures created == |relations| - |old(relations)|
    {
      created := 0;
      ghost var before := relations;
      for i := 0 to |tables|
        invariant relations == Grown(before, AllPeriods(tables[..i], days))
        invariant created == |relations| - |before|
      {
        NextTableCanStart(before, strayDays, tables, days, i);
        var more := CoverPeriods(SortedPeriods(tables[i], days));
        created := created + more;
        OneMoreTable(before, tables, days, i);
      }
      AllTablesAreCovered(before, tables, days);
    }

    /** The named tables in order; the first unregistered name is the error. */
    method Select(names: seq<string>) returns (r: Result<seq<Table>, CoverageError>)
      ensures r.Ok? <==> Named(names).Some?
      ensures r.Ok? ==> Named(names) == Some(r.value)
      ensures r.Err? ==> exists i | 0 <= i < |names| ::
        r.error.name == names[i] && Lookup(names[i]).None? && Named(names[..i]).Some?
    {
      var selected: seq<Table> := [];
      for i := 0 to |names|
        invariant Named(names[..i]) == Some(selected)
      {
        assert names[..i + 1][..i] == names[..i];
        var found := Lookup(names[i]);
        if found.None? {
          EachNeedsAll(Lookup, names);
          return Err(UnknownTable(names[i]));
        }
        selected := selected + [found.value];
      }
      assert names[..|names|] == names;
      r := Ok(selected);
    }

    /** `ensure_coverage`: no names means every registered table; an unknown name changes nothing, and only what is
        selected has to be creatable. */
    method EnsureCoverageFor(days: seq<Date>, names: Option<seq<string>>) returns (r: Result<nat, CoverageError>)
      requires Valid()
      requires Selection(names).Some? ==>
        AllReady(Selection(names).value, days) && Creatable(Selection(names).value, days)
      modifies this`relations
      ensures Valid()
      ensures r.Ok? <==> Selection(names).Some?
      ensures r.Ok? ==> r.value == |relations| - |old(relations)|
      ensures relations == if r.Ok? then Added(Selection(names).value, days) + old(relations) else old(relations)
    {
      var selected := PARTITIONED;
      if names.Some? {
        var found := Select(names.value);
        if found.Err? {
          return Err(found.error);
        }
        selected := found.value;
      }
      var created := EnsureCoverage(days, selected);
      r := Ok(created);
    }
  }

  lemma NamedHoldsTheNamed(names: seq<string>, table: Table)
    requires Named(names).Some?
    ensures table in Named(names).value <==> TableName(table) in names
  {
    EachHolds(Lookup, names, table);
    LookupOfName(table);
  }

  /** A selection is refused exactly when it names an unregistered table; otherwise it is exactly the tables named, or
      without names all of them. */
  lemma SelectionIsTheNamed(names: Option<seq<string>>)
    ensures Selection(names).None? <==> names.Some? && exists name | name in names.value :: Lookup(name).None?
    ensures Selection(names).Some? ==>
      forall table :: table in Selection(names).value <==> (names.None? || TableName(table) in names.value)
  {
    if names.None? {
      forall table ensures table in PARTITIONED {
        EveryTableIsRegistered(table);
      }
    } else {
      EachNeedsAll(Lookup, names.value);
      if Named(names.value).Some? {
        forall table ensures table in Named(names.value).value <==> TableName(table) in names.value {
          NamedHoldsTheNamed(names.value, table);
        }
      }
    }
  }
}
