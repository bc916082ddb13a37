// Retention as a state machine: readers publish positions, clocks move, rows arrive, the worker
// provisions and drops. Entries and their assignments are partitioned alike, with no foreign key.

module Retention {

  import opened Calendar
  import opened Catalogue
  import opened Cursors
  import opened Grains
  import opened PartitionNames
  import opened Partitioning
  import opened Results

  datatype Settings = Settings(retentionDays: int, staleAfter: int, analyticsGate: bool)

  predicate KeepsForever(table: Table) {
    table in {AnalyticsFacts, AnalyticsFactLedger, AnalyticsDailyRollups, AnalyticsRecordFacts}
  }

  /** Entries, and the assignments cut alike, outlast the transactions that own them by one day. */
  predicate LagsOneDay(table: Table) {
    table in {LogEntries, LogEntryAssignment}
  }

  predicate HealthGated(table: Table) {
    table in {LogEntries, LogTransactions, LogEntryAssignment}
  }

  function RetentionDaysFor(table: Table, cfg: Settings): Option<int> {
    if KeepsForever(table) then None
    else
      var days := match table
        case AnalyticsHourlyRollups => 90
        case AnalyticsQualityIssues => 365
        case _ => cfg.retentionDays;
      Some(days + if LagsOneDay(table) then 1 else 0)
  }

  predicate CutoffExists(table: Table, today: Date, cfg: Settings) {
    RetentionDaysFor(table, cfg).Some? ==> CanAddDays(today, -RetentionDaysFor(table, cfg).value)
  }

  function DroppableDays(table: Table, covered: seq<Date>, today: Date, cfg: Settings): seq<Date>
    requires CutoffExists(table, today, cfg)
    requires forall s | s in covered :: HasNext(GrainOf(table), s)
  {
    match RetentionDaysFor(table, cfg)
    case None => []
    case Some(days) => ExpiredDays(covered, today, days, GrainOf(table))
  }

  /** An open stitch window, both ends included. */
  datatype Window = Window(start: Instant, end: Instant)

  predicate Overlaps(lo: Instant, hi: Instant, w: Window) {
    w.start < hi && w.end >= lo
  }

  /** The three holds: unfinished writing, unfinished reading, analytics that needs its source. */
  ghost predicate Held(r: Relation, windows: set<Window>, floor: Option<Instant>, cfg: Settings, unhealthy: bool)
    requires r.Dated?
  {
    || (exists w | w in windows :: Overlaps(DayStart(r.from), DayStart(r.to), w))
    || BlocksUntil(DayStart(r.to), floor)
    || (cfg.analyticsGate && unhealthy && HealthGated(r.table))
  }

  /** The query fetches only windows meeting the span of all candidates; no hold is lost by that. */
  lemma PrefilterLosesNoHold(candidates: set<Relation>, lo: Instant, hi: Instant, r: Relation, w: Window)
    requires forall c | c in candidates :: c.Dated? && lo <= DayStart(c.from) && DayStart(c.to) <= hi
    requires r in candidates && Overlaps(DayStart(r.from), DayStart(r.to), w)
    ensures Overlaps(lo, hi, w)
  {
    assert r.Dated?;
  }

  // ---------------------------------------------------------------- covered days

  /** The partition starts of a table, read from the bounds. */
  ghost function Covered(relations: Relations, table: Table): set<Date> {
    set name | name in relations && relations[name].Dated? && relations[name].table == table :: relations[name].from
  }

  lemma CoveredIsNamed(relations: Relations, table: Table, start: Date)
    requires Consistent(relations)
    ensures start in Covered(relations, table)
       <==> Ready(table, start) && IsStart(GrainOf(table), start) && PartitionName(table, start) in relations
  {
    if start in Covered(relations, table) {
      var name :| name in relations && relations[name].Dated? && relations[name].table == table
                  && relations[name].from == start;
      assert WellNamed(name, relations[name]);
    }
    if Ready(table, start) && IsStart(GrainOf(table), start) && PartitionName(table, start) in relations {
      NameIsIdentity(relations, table, start);
    }
  }

  /** A set of days as a list; which order is immaterial, for `ExpiredDays` sorts. */
  ghost function Listed(days: set<Date>): (r: seq<Date>)
    ensures forall d: Date :: d in r <==> d in days
  {
    if days == {} then []
    else
      var d: Date :| d in days;
      [d] + Listed(days - {d})
  }

  ghost predicate Due(relations: Relations, table: Table, start: Date, today: Date, cfg: Settings)
    requires Consistent(relations) && CutoffExists(table, today, cfg)
  {
    CoveredHaveNext(relations, table);
    start in DroppableDays(table, Listed(Covered(relations, table)), today, cfg)
  }

  lemma CoveredHaveNext(relations: Relations, table: Table)
    requires Consistent(relations)
    ensures forall s | s in Covered(relations, table) :: HasNext(GrainOf(table), s)
  {
    forall s | s in Covered(relations, table) ensures HasNext(GrainOf(table), s) {
      CoveredIsNamed(relations, table, s);
    }
  }

  /** What is due: the covered periods of a table that expires, every day of which is past its retention. */
  lemma DueIsExact(relations: Relations, table: Table, start: Date, today: Date, cfg: Settings)
    requires Consistent(relations) && CutoffExists(table, today, cfg)
    ensures Due(relations, table, start, today, cfg)
       <==> && start in Covered(relations, table)
            && RetentionDaysFor(table, cfg).Some?
            && EveryDayBefore(GrainOf(table), start, Ordinal(today) - RetentionDaysFor(table, cfg).value)
  {
    CoveredHaveNext(relations, table);
    match RetentionDaysFor(table, cfg)
    case None =>
    case Some(days) => ExpiredDaysIsExact(Listed(Covered(relations, table)), today, days, GrainOf(table));
  }

  lemma DailyIsItself(s: Date, ordinal: int)
    ensures EveryDayBefore(Daily, s, ordinal) <==> Ordinal(s) < ordinal
  {
    assert PeriodStart(Daily, s) == s;
  }

  lemma DailyDueIsExact(relations: Relations, table: Table, start: Date, today: Date, cfg: Settings)
    requires Consistent(relations) && CutoffExists(table, today, cfg)
    requires GrainOf(table) == Daily && RetentionDaysFor(table, cfg).Some?
    ensures Due(relations, table, start, today, cfg)
       <==> && start in Covered(relations, table)
            && Ordinal(start) < Ordinal(today) - RetentionDaysFor(table, cfg).value
  {
    DueIsExact(relations, table, start, today, cfg);
    DailyIsItself(start, Ordinal(today) - RetentionDaysFor(table, cfg).value);
  }

  /** The midnight rule of the schedule: when a day of entries is due, so is every covered transaction
      day that can own entries on it. */
  lemma TransactionsAreDueBeforeTheirEntries(relations: Relations, entryDay: Date, txnDay: Date, today: Date, cfg: Settings)
    requires Consistent(relations)
    requires CutoffExists(LogEntries, today, cfg) && CutoffExists(LogTransactions, today, cfg)
    requires Due(relations, LogEntries, entryDay, today, cfg)
    requires Ordinal(txnDay) <= Ordinal(entryDay) + 1 && txnDay in Covered(relations, LogTransactions)
    ensures Due(relations, LogTransactions, txnDay, today, cfg)
  {
    DailyDueIsExact(relations, LogEntries, entryDay, today, cfg);
    DailyDueIsExact(relations, LogTransactions, txnDay, today, cfg);
  }

  // ---------------------------------------------------------------- the state machine

  type Stamp = t: Instant | InCalendar(t) witness DAY

  datatype Entry = Entry(id: nat, customer: string, timestamp: Option<Stamp>)

  datatype Assignment = Assignment(entryId: nat, customer: string, entryTs: Option<Stamp>)

  /** One dropped partition, with what was known when it went. */
  datatype Drop = Drop(partition: Relation, today: Date, live: map<string, Instant>, windows: set<Window>, unhealthy: bool)

  datatype State = State(
    relations: Relations,
    cursors: map<string, Cursor>,
    now: Instant,
    windows: set<Window>,
    entries: set<Entry>,
    assignments: set<Assignment>,
    drops: set<Drop>)

  datatype Step =
    | Report(consumer: string, position: Instant)
    | Tick(later: Instant)
    | Stitch(windows: set<Window>)
    | Insert(entry: Entry)
    | Assign(owned: Entry)
    | Unassign(freed: set<Assignment>)
    | Purge(customer: string)
    | Provision(tables: seq<Table>, days: seq<Date>)
    | DropExpired(today: Date, floor: Option<Instant>, unhealthy: bool)

  /** A keyed row lives in the dated partition that holds its UTC day, if there is one. */
  ghost predicate LivesIn(relations: Relations, names: set<string>, table: Table, key: Option<Stamp>) {
    key.Some? && exists name | name in names && name in relations :: Holds(relations[name], table, DayOf(key.value))
  }

  /** PostgreSQL refuses a partition for rows that DEFAULT holds. */
  ghost predicate NoStrays(s: State, added: Relations) {
    && (forall e | e in s.entries :: !LivesIn(added, added.Keys - s.relations.Keys, LogEntries, e.timestamp))
    && (forall a | a in s.assignments ::
          !LivesIn(added, added.Keys - s.relations.Keys, LogEntryAssignment, a.entryTs))
  }

  ghost predicate Enabled(cfg: Settings, s: State, step: Step) {
    match step
    case Report(_, _) => true
    case Tick(later) => s.now <= later
    case Stitch(_) => true
    case Insert(_) => true
    case Assign(owned) => owned in s.entries
    case Unassign(_) => true
    case Purge(_) => true
    case Provision(tables, days) =>
      && AllReady(tables, days)
      && NoStrays(s, Added(tables, days))
      && (LogEntries in tables <==> LogEntryAssignment in tables)
    case DropExpired(today, floor, _) =>
      && Consistent(s.relations)
      && (forall table :: CutoffExists(table, today, cfg))
      && IsMinLive(s.cursors, s.now, cfg.staleAfter, floor)
  }

  ghost predicate Goes(cfg: Settings, s: State, step: Step, r: Relation)
    requires step.DropExpired? && Enabled(cfg, s, step)
  {
    && r.Dated?
    && Due(s.relations, r.table, r.from, step.today, cfg)
    && !Held(r, s.windows, step.floor, cfg, step.unhealthy)
  }

  ghost function DropNames(cfg: Settings, s: State, step: Step): set<string>
    requires step.DropExpired? && Enabled(cfg, s, step)
  {
    set name | name in s.relations && Goes(cfg, s, step, s.relations[name])
  }

  ghost function LivePositions(s: State, cfg: Settings): map<string, Instant> {
    map c | c in s.cursors && IsLive(s.cursors[c].updatedAt, s.now, cfg.staleAfter) :: s.cursors[c].position
  }

  ghost function Apply(cfg: Settings, s: State, step: Step): State
    requires Enabled(cfg, s, step)
  {
    match step
    case Report(consumer, position) => s.(cursors := s.cursors[consumer := Cursor(position, s.now)])
    case Tick(later) => s.(now := later)
    case Stitch(windows) => s.(windows := windows)
    case Insert(entry) => s.(entries := s.entries + {entry})
    case Assign(owned) => s.(assignments := s.assignments + {Assignment(owned.id, owned.customer, owned.timestamp)})
    case Unassign(freed) => s.(assignments := s.assignments - freed)
    case Purge(customer) =>
      s.(entries := (set e | e in s.entries && e.customer != customer),
         assignments := (set a | a in s.assignments && a.customer != customer))
    case Provision(tables, days) => s.(relations := Added(tables, days) + s.relations)
    case DropExpired(today, floor, unhealthy) =>
      var names := DropNames(cfg, s, step);
      s.(relations := s.relations - names,
         entries := (set e | e in s.entries && !LivesIn(s.relations, names, LogEntries, e.timestamp)),
         assignments := (set a | a in s.assignments && !LivesIn(s.relations, names, LogEntryAssignment, a.entryTs)),
         drops := s.drops + (set name | name in names ::
           Drop(s.relations[name], today, LivePositions(s, cfg), s.windows, unhealthy)))
  }

  // ---------------------------------------------------------------- the invariant

  ghost predicate Twins(relations: Relations) {
    Covered(relations, LogEntries) == Covered(relations, LogEntryAssignment)
  }

  ghost predicate EveryAssignmentHasItsEntry(s: State) {
    forall a | a in s.assignments :: Entry(a.entryId, a.customer, a.entryTs) in s.entries
  }

  /** No reader, writer or policy still needed a dropped partition when it went. */
  ghost predicate WasSafe(cfg: Settings, d: Drop) {
    && d.partition.Dated?
    && (forall c | c in d.live :: DayStart(d.partition.to) <= d.live[c])
    && (forall w | w in d.windows :: !Overlaps(DayStart(d.partition.from), DayStart(d.partition.to), w))
    && (cfg.analyticsGate && d.unhealthy ==> !HealthGated(d.partition.table))
    && RetentionDaysFor(d.partition.table, cfg).Some?
    && Ordinal(d.partition.to) <= Ordinal(d.today) - RetentionDaysFor(d.partition.table, cfg).value
  }

  ghost predicate Inv(cfg: Settings, s: State) {
    && Consistent(s.relations)
    && Twins(s.relations)
    && EveryAssignmentHasItsEntry(s)
    && forall d | d in s.drops :: WasSafe(cfg, d)
  }

  lemma AddedNamesAreOfTheirTable(tables: seq<Table>, days: seq<Date>, table: Table, start: Date)
    requires AllReady(tables, days) && Ready(table, start) && IsStart(GrainOf(table), start)
    ensures PartitionName(table, start) in Added(tables, days)
       <==> table in tables && exists day | day in days :: PeriodStart(GrainOf(table), day) == start
  {
    AddedIsExact(tables, days);
    var name := PartitionName(table, start);
    if name in Added(tables, days) {
      var other, day :| other in tables && day in days && Ready(other, day) && name == PartitionName(other, day);
      PartitionNamesAreInjective(other, day, table, start);
    }
    if table in tables {
      if day :| day in days && PeriodStart(GrainOf(table), day) == start {
        assert Ready(table, day) && PartitionName(table, day) in Added(tables, days);
        PartitionNamesAreInjective(table, day, table, start);
      }
    }
  }

  lemma RequestedStartsAreReady(tables: seq<Table>, days: seq<Date>, table: Table, day: Date)
    requires AllReady(tables, days) && table in tables && day in days
    ensures Ready(table, PeriodStart(GrainOf(table), day))
    ensures IsStart(GrainOf(table), PeriodStart(GrainOf(table), day))
  {
    assert Ready(table, day);
    StartsAreStarts(GrainOf(table), day);
  }

  lemma ProvisionCovers(relations: Relations, tables: seq<Table>, days: seq<Date>, table: Table, start: Date)
    requires Consistent(relations) && AllReady(tables, days)
    ensures Consistent(Added(tables, days) + relations)
    ensures start in Covered(Added(tables, days) + relations, table)
       <==> || start in Covered(relations, table)
            || (table in tables && exists day | day in days :: PeriodStart(GrainOf(table), day) == start)
  {
    ProvisioningKeepsConsistent(relations, tables, days);
    CoveredIsNamed(relations, table, start);
    CoveredIsNamed(Added(tables, days) + relations, table, start);
    if table in tables {
      if day :| day in days && PeriodStart(GrainOf(table), day) == start {
        RequestedStartsAreReady(tables, days, table, day);
      }
    }
    if Ready(table, start) && IsStart(GrainOf(table), start) {
      AddedNamesAreOfTheirTable(tables, days, table, start);
    }
  }

  lemma ProvisionKeepsTwins(relations: Relations, tables: seq<Table>, days: seq<Date>)
    requires Consistent(relations) && AllReady(tables, days) && Twins(relations)
    requires LogEntries in tables <==> LogEntryAssignment in tables
    ensures Consistent(Added(tables, days) + relations) && Twins(Added(tables, days) + relations)
  {
    ProvisioningKeepsConsistent(relations, tables, days);
    forall start: Date
      ensures start in Covered(Added(tables, days) + relations, LogEntries)
         <==> start in Covered(Added(tables, days) + relations, LogEntryAssignment)
    {
      ProvisionCovers(relations, tables, days, LogEntries, start);
      ProvisionCovers(relations, tables, days, LogEntryAssignment, start);
    }
  }

  /** Both tables lose the same of the days they both cover: same retention, same grain, same holds. */
  lemma TwinsGoTogether(cfg: Settings, s: State, step: Step, start: Date)
    requires step.DropExpired? && Enabled(cfg, s, step)
    requires start in Covered(s.relations, LogEntries) && start in Covered(s.relations, LogEntryAssignment)
    ensures Ready(LogEntries, start) && Ready(LogEntryAssignment, start)
    ensures PartitionName(LogEntries, start) in DropNames(cfg, s, step)
       <==> PartitionName(LogEntryAssignment, start) in DropNames(cfg, s, step)
  {
    CoveredIsNamed(s.relations, LogEntries, start);
    CoveredIsNamed(s.relations, LogEntryAssignment, start);
    NameIsIdentity(s.relations, LogEntries, start);
    NameIsIdentity(s.relations, LogEntryAssignment, start);
    DueIsExact(s.relations, LogEntries, start, step.today, cfg);
    DueIsExact(s.relations, LogEntryAssignment, start, step.today, cfg);
    var r, q := PartitionFor(LogEntries, start), PartitionFor(LogEntryAssignment, start);
    assert r.from == q.from && r.to == q.to;
    assert Held(r, s.windows, step.floor, cfg, step.unhealthy) <==> Held(q, s.windows, step.floor, cfg, step.unhealthy);
  }

  lemma HolderIsNamed(relations: Relations, table: Table, day: Date, name: string)
    requires Consistent(relations) && GrainOf(table) == Daily
    requires name in relations && Holds(relations[name], table, day)
    ensures day in Covered(relations, table) && Ready(table, day) && PartitionName(table, day) == name
  {
    assert WellNamed(name, relations[name]);
    OrdinalIsOrder(day, relations[name].from);
  }

  lemma LivesInItsOwnDay(relations: Relations, names: set<string>, table: Table, key: Stamp)
    requires Consistent(relations) && GrainOf(table) == Daily && names <= relations.Keys
    ensures LivesIn(relations, names, table, Some(key))
       <==> var day := DayOf(key);
            day in Covered(relations, table) && Ready(table, day) && PartitionName(table, day) in names
  {
    var day := DayOf(key);
    if LivesIn(relations, names, table, Some(key)) {
      var name :| name in names && name in relations && Holds(relations[name], table, day);
      HolderIsNamed(relations, table, day, name);
    }
    if Ready(table, day) && PartitionName(table, day) in names {
      NamedPartitionHoldsItsDay(relations, table, day);
    }
  }

  function EntryOf(a: Assignment): Entry {
    Entry(a.entryId, a.customer, a.entryTs)
  }

  /** Its entry is dropped with a day that the assignments' table does not cover, so that it sits in DEFAULT. */
  ghost predicate Stranded(cfg: Settings, s: State, step: Step, a: Assignment)
    requires step.DropExpired? && Enabled(cfg, s, step)
  {
    && LivesIn(s.relations, DropNames(cfg, s, step), LogEntries, a.entryTs)
    && DayOf(a.entryTs.value) !in Covered(s.relations, LogEntryAssignment)
  }

  lemma LosesItsEntryIffStranded(cfg: Settings, s: State, step: Step, a: Assignment)
    requires step.DropExpired? && Enabled(cfg, s, step)
    requires a in s.assignments && EntryOf(a) in s.entries
    ensures a in Apply(cfg, s, step).assignments && EntryOf(a) !in Apply(cfg, s, step).entries
       <==> Stranded(cfg, s, step, a)
  {
    var names := DropNames(cfg, s, step);
    if a.entryTs.Some? {
      var key := a.entryTs.value;
      LivesInItsOwnDay(s.relations, names, LogEntries, key);
      LivesInItsOwnDay(s.relations, names, LogEntryAssignment, key);
      if DayOf(key) in Covered(s.relations, LogEntries) && DayOf(key) in Covered(s.relations, LogEntryAssignment) {
        TwinsGoTogether(cfg, s, step, DayOf(key));
      }
    }
  }

  /** Whatever the two catalogues are, exactly: a drop keeps every assignment's entry if and only if no assignment of an
      entry it drops lies on a day that the assignments' table does not cover. */
  lemma DropKeepsReferencesIff(cfg: Settings, s: State, step: Step)
    requires step.DropExpired? && Enabled(cfg, s, step) && EveryAssignmentHasItsEntry(s)
    ensures EveryAssignmentHasItsEntry(Apply(cfg, s, step))
       <==> forall a | a in s.assignments :: !Stranded(cfg, s, step, a)
  {
    var next := Apply(cfg, s, step);
    forall a | a in s.assignments
      ensures a in next.assignments && EntryOf(a) !in next.entries <==> Stranded(cfg, s, step, a)
    {
      assert EntryOf(a) in s.entries;
      LosesItsEntryIffStranded(cfg, s, step, a);
    }
    if forall a | a in s.assignments :: !Stranded(cfg, s, step, a) {
      forall a | a in next.assignments ensures Entry(a.entryId, a.customer, a.entryTs) in next.entries {
        assert a in s.assignments && !Stranded(cfg, s, step, a) && EntryOf(a) in next.entries;
      }
    }
  }

  lemma TwinsStrandNone(cfg: Settings, s: State, step: Step, a: Assignment)
    requires step.DropExpired? && Enabled(cfg, s, step) && Twins(s.relations)
    ensures !Stranded(cfg, s, step, a)
  {
    if a.entryTs.Some? {
      LivesInItsOwnDay(s.relations, DropNames(cfg, s, step), LogEntries, a.entryTs.value);
    }
  }

  lemma DropKeepsReferences(cfg: Settings, s: State, step: Step)
    requires step.DropExpired? && Enabled(cfg, s, step) && Inv(cfg, s)
    ensures EveryAssignmentHasItsEntry(Apply(cfg, s, step))
  {
    DropKeepsReferencesIff(cfg, s, step);
    forall a | a in s.assignments ensures !Stranded(cfg, s, step, a) {
      TwinsStrandNone(cfg, s, step, a);
    }
  }

  lemma DropKeepsTwins(cfg: Settings, s: State, step: Step)
    requires step.DropExpired? && Enabled(cfg, s, step) && Inv(cfg, s)
    ensures Consistent(Apply(cfg, s, step).relations) && Twins(Apply(cfg, s, step).relations)
  {
    var names := DropNames(cfg, s, step);
    var left := s.relations - names;
    forall name | name in left ensures WellNamed(name, left[name]) {
      assert WellNamed(name, s.relations[name]);
    }
    forall start: Date ensures start in Covered(left, LogEntries) <==> start in Covered(left, LogEntryAssignment) {
      CoveredIsNamed(left, LogEntries, start);
      CoveredIsNamed(left, LogEntryAssignment, start);
      CoveredIsNamed(s.relations, LogEntries, start);
      CoveredIsNamed(s.relations, LogEntryAssignment, start);
      if start in Covered(s.relations, LogEntries) {
        TwinsGoTogether(cfg, s, step, start);
      }
    }
  }

  lemma EachDropIsSafe(cfg: Settings, s: State, step: Step, name: string)
    requires step.DropExpired? && Enabled(cfg, s, step) && Inv(cfg, s)
    requires name in DropNames(cfg, s, step)
    ensures WasSafe(cfg, Drop(s.relations[name], step.today, LivePositions(s, cfg), s.windows, step.unhealthy))
  {
    var r := s.relations[name];
    assert WellNamed(name, r);
    DueIsExact(s.relations, r.table, r.from, step.today, cfg);
    var end := PeriodEnd(GrainOf(r.table), r.from);
    StartIsBefore(GrainOf(r.table), r.from);
    NextIsAfter(GrainOf(r.table), r.from);
    PeriodIsInterval(GrainOf(r.table), r.from, end);
  }

  lemma StepKeepsInv(cfg: Settings, s: State, step: Step)
    requires Inv(cfg, s) && Enabled(cfg, s, step)
    ensures Inv(cfg, Apply(cfg, s, step))
  {
    var next := Apply(cfg, s, step);
    match step
    case Report(_, _) =>
    case Tick(_) =>
    case Stitch(_) =>
    case Insert(_) =>
    case Assign(_) =>
    case Unassign(_) =>
    case Purge(_) =>
    case Provision(tables, days) =>
      ProvisionKeepsTwins(s.relations, tables, days);
    case DropExpired(_, _, _) =>
      DropKeepsTwins(cfg, s, step);
      DropKeepsReferences(cfg, s, step);
      forall d | d in next.drops ensures WasSafe(cfg, d) {
        if d !in s.drops {
          var name :| name in DropNames(cfg, s, step)
            && d == Drop(s.relations[name], step.today, LivePositions(s, cfg), s.windows, step.unhealthy);
          EachDropIsSafe(cfg, s, step, name);
        }
      }
  }

  // ---------------------------------------------------------------- the midnight rule under the holds

  ghost predicate PartitionGoes(cfg: Settings, s: State, step: Step, table: Table, start: Date)
    requires step.DropExpired? && Enabled(cfg, s, step) && Ready(table, start)
  {
    PartitionName(table, start) in DropNames(cfg, s, step)
  }

  lemma GoesIffDueAndFree(cfg: Settings, s: State, step: Step, table: Table, start: Date)
    requires step.DropExpired? && Enabled(cfg, s, step)
    requires Ready(table, start) && IsStart(GrainOf(table), start)
    ensures PartitionGoes(cfg, s, step, table, start)
       <==> && Due(s.relations, table, start, step.today, cfg)
            && !Held(PartitionFor(table, start), s.windows, step.floor, cfg, step.unhealthy)
  {
    CoveredIsNamed(s.relations, table, start);
    DueIsExact(s.relations, table, start, step.today, cfg);
    if PartitionName(table, start) in s.relations {
      NameIsIdentity(s.relations, table, start);
    }
  }

  /** When a day of entries goes, the transactions of the day before go with it exactly when no open
      stitch window touches that earlier day: only a window can hold one day and not the next. */
  lemma EntriesOutliveTransactionsUnlessStitching(cfg: Settings, s: State, step: Step, txnDay: Date, entryDay: Date)
    requires step.DropExpired? && Enabled(cfg, s, step)
    requires Ordinal(entryDay) == Ordinal(txnDay) + 1
    requires txnDay in Covered(s.relations, LogTransactions)
    requires Ready(LogEntries, entryDay) && PartitionGoes(cfg, s, step, LogEntries, entryDay)
    ensures Ready(LogTransactions, txnDay)
    ensures PartitionGoes(cfg, s, step, LogTransactions, txnDay)
       <==> forall w | w in s.windows :: !Overlaps(DayStart(txnDay), DayStart(entryDay), w)
  {
    CoveredIsNamed(s.relations, LogTransactions, txnDay);
    GoesIffDueAndFree(cfg, s, step, LogEntries, entryDay);
    GoesIffDueAndFree(cfg, s, step, LogTransactions, txnDay);
    TransactionsAreDueBeforeTheirEntries(s.relations, entryDay, txnDay, step.today, cfg);
    HoldOfTheDayBefore(cfg, s.windows, step.floor, step.unhealthy, txnDay, entryDay);
  }

  lemma HoldOfTheDayBefore(cfg: Settings, windows: set<Window>, floor: Option<Instant>, unhealthy: bool,
                           txnDay: Date, entryDay: Date)
    requires Ordinal(entryDay) == Ordinal(txnDay) + 1
    requires HasNext(Daily, txnDay) && HasNext(Daily, entryDay)
    requires !Held(PartitionFor(LogEntries, entryDay), windows, floor, cfg, unhealthy)
    ensures Held(PartitionFor(LogTransactions, txnDay), windows, floor, cfg, unhealthy)
       <==> exists w | w in windows :: Overlaps(DayStart(txnDay), DayStart(entryDay), w)
  {
    NextIsAfter(Daily, entryDay);
    OrdinalIsOrder(NextPeriodStart(Daily, txnDay), entryDay);
  }

  /** Some drop takes a day of entries and leaves the transactions of the day before. */
  ghost predicate LeavesTransactionsBehind(cfg: Settings, s: State, step: Step, txnDay: Date, entryDay: Date) {
    && step.DropExpired? && Enabled(cfg, s, step) && Inv(cfg, s)
    && Ordinal(entryDay) == Ordinal(txnDay) + 1
    && Ready(LogEntries, entryDay) && PartitionGoes(cfg, s, step, LogEntries, entryDay)
    && Ready(LogTransactions, txnDay) && !PartitionGoes(cfg, s, step, LogTransactions, txnDay)
    && PartitionName(LogTransactions, txnDay) in s.relations
  }

  lemma GapIsDue(cfg: Settings, s: State, step: Step, entryDay: Date)
    requires step.DropExpired? && step.floor == None && !step.unhealthy && cfg == Settings(60, 3600, false)
    requires Consistent(s.relations) && s.cursors == map[]
    requires Ready(LogEntries, entryDay) && entryDay in Covered(s.relations, LogEntries)
    requires forall w | w in s.windows :: w.end < DayStart(entryDay)
    requires Ordinal(entryDay) < Ordinal(step.today) - 61
    requires 366 < Ordinal(step.today) <= MAX_ORDINAL
    ensures Enabled(cfg, s, step) && PartitionGoes(cfg, s, step, LogEntries, entryDay)
  {
    CutoffsExist(cfg, step.today);
    GapIsFree(cfg, s.windows, entryDay);
    GapIsExpired(cfg, s.relations, step.today, entryDay);
    GoesIffDueAndFree(cfg, s, step, LogEntries, entryDay);
  }

  lemma GapIsFree(cfg: Settings, windows: set<Window>, entryDay: Date)
    requires !cfg.analyticsGate && HasNext(Daily, entryDay)
    requires forall w | w in windows :: w.end < DayStart(entryDay)
    ensures !Held(PartitionFor(LogEntries, entryDay), windows, None, cfg, false)
  {
  }

  lemma GapIsExpired(cfg: Settings, relations: Relations, today: Date, entryDay: Date)
    requires Consistent(relations) && CutoffExists(LogEntries, today, cfg) && cfg.retentionDays == 60
    requires entryDay in Covered(relations, LogEntries) && Ordinal(entryDay) < Ordinal(today) - 61
    ensures Due(relations, LogEntries, entryDay, today, cfg)
  {
    DueIsExact(relations, LogEntries, entryDay, today, cfg);
    DailyIsItself(entryDay, Ordinal(today) - 61);
  }

  lemma CutoffsExist(cfg: Settings, today: Date)
    requires cfg.retentionDays == 60 && 366 < Ordinal(today) <= MAX_ORDINAL
    ensures forall table :: CutoffExists(table, today, cfg)
  {
  }

  lemma ExampleDays(txnDay: Date, entryDay: Date, today: Date)
    requires txnDay == RawDate(2026, 3, 1) && entryDay == RawDate(2026, 3, 2) && today == RawDate(2030, 1, 1)
    ensures Ordinal(entryDay) == Ordinal(txnDay) + 1
    ensures Ready(LogEntries, entryDay) && Ready(LogTransactions, txnDay)
    ensures Ordinal(entryDay) < Ordinal(today) - 61
    ensures 366 < Ordinal(today) <= MAX_ORDINAL
  {
    YearsAscend(2027, 2030);
    YearsAscend(MIN_YEAR, 2030);
    OrdinalBounds(entryDay);
    OrdinalBounds(today);
  }

  // ---------------------------------------------------------------- whole runs

  ghost predicate IsRun(cfg: Settings, states: seq<State>, steps: seq<Step>) {
    && |states| == |steps| + 1
    && forall i | 0 <= i < |steps| :: Enabled(cfg, states[i], steps[i]) && states[i + 1] == Apply(cfg, states[i], steps[i])
  }

  /** Through every run, each surviving assignment has its entry, and every drop was safe when made. */
  lemma {:induction false} RunsKeepInv(cfg: Settings, states: seq<State>, steps: seq<Step>, i: nat)
    requires IsRun(cfg, states, steps) && Inv(cfg, states[0]) && i < |states|
    ensures Inv(cfg, states[i])
    decreases i
  {
    if i > 0 {
      RunsKeepInv(cfg, states, steps, i - 1);
      assert Enabled(cfg, states[i - 1], steps[i - 1]);
      StepKeepsInv(cfg, states[i - 1], steps[i - 1]);
    }
  }

  ghost predicate NeverReportsBackwards(states: seq<State>, consumer: string) {
    forall i, j | 0 <= i < j < |states| && consumer in states[i].cursors ::
      consumer in states[j].cursors && states[i].cursors[consumer].position <= states[j].cursors[consumer].position
  }

  /** A consumer that was live at a drop and never reports backwards stays past what was dropped. */
  lemma {:induction false} DroppedStaysConsumed(cfg: Settings, states: seq<State>, steps: seq<Step>, i: nat,
                                                consumer: string, d: Drop)
    requires IsRun(cfg, states, steps) && Inv(cfg, states[0]) && states[0].drops == {} && i < |states|
    requires NeverReportsBackwards(states, consumer)
    requires d in states[i].drops && consumer in d.live
    ensures d.partition.Dated? && consumer in states[i].cursors
    ensures DayStart(d.partition.to) <= states[i].cursors[consumer].position
    decreases i
  {
    var before := states[i - 1];
    assert Enabled(cfg, before, steps[i - 1]) && states[i] == Apply(cfg, before, steps[i - 1]);
    if d in before.drops {
      DroppedStaysConsumed(cfg, states, steps, i - 1, consumer, d);
    } else {
      RunsKeepInv(cfg, states, steps, i);
      assert WasSafe(cfg, d);
      assert d.live == LivePositions(before, cfg);
    }
  }

  // ---------------------------------------------------------------- a run into the gap

  const EMPTY: State := State(map[], map[], 0, {}, {}, {}, {})

  lemma OneMoreStep(cfg: Settings, states: seq<State>, steps: seq<Step>, step: Step)
    returns (longer: seq<State>, done: seq<Step>)
    requires IsRun(cfg, states, steps) && Enabled(cfg, states[|steps|], step)
    ensures IsRun(cfg, longer, done) && |done| == |steps| + 1 && longer[0] == states[0]
    ensures longer[|steps|] == states[|steps|] && done[|steps|] == step
    ensures longer[|done|] == Apply(cfg, states[|steps|], step)
  {
    longer, done := states + [Apply(cfg, states[|steps|], step)], steps + [step];
  }

  lemma MayProvision(cfg: Settings, s: State, tables: seq<Table>, days: seq<Date>)
    requires s.entries == {} && s.assignments == {}
    requires AllReady(tables, days) && (LogEntries in tables <==> LogEntryAssignment in tables)
    ensures Enabled(cfg, s, Provision(tables, days))
    ensures Apply(cfg, s, Provision(tables, days)) == s.(relations := Added(tables, days) + s.relations)
  {
  }

  lemma ProvisionedDay(relations: Relations, tables: seq<Table>, day: Date, table: Table)
    requires Consistent(relations) && AllReady(tables, [day]) && GrainOf(table) == Daily
    ensures Consistent(Added(tables, [day]) + relations)
    ensures table in tables ==> day in Covered(Added(tables, [day]) + relations, table)
  {
    ProvisionCovers(relations, tables, [day], table, day);
    assert day in [day] && PeriodStart(Daily, day) == day;
  }

  lemma ProvisionedTables(cfg: Settings, txnDay: Date, entryDay: Date) returns (states: seq<State>, steps: seq<Step>)
    requires Ready(LogEntries, entryDay) && Ready(LogEntryAssignment, entryDay) && Ready(LogTransactions, txnDay)
    ensures IsRun(cfg, states, steps) && |steps| == 2 && states[0] == EMPTY
    ensures states[2] == EMPTY.(relations := states[2].relations)
    ensures entryDay in Covered(states[2].relations, LogEntries) && txnDay in Covered(states[2].relations, LogTransactions)
  {
    var logs, txns := [LogEntries, LogEntryAssignment], [LogTransactions];
    assert LogEntries in logs && LogEntryAssignment in logs && LogTransactions in txns;
    states, steps := ProvisionedTwice(cfg, logs, txns, txnDay, entryDay);
  }

  lemma ProvisionedTwice(cfg: Settings, logs: seq<Table>, txns: seq<Table>, txnDay: Date, entryDay: Date)
    returns (states: seq<State>, steps: seq<Step>)
    requires AllReady(logs, [entryDay]) && LogEntries in logs && LogEntryAssignment in logs
    requires AllReady(txns, [txnDay]) && LogTransactions in txns
    requires LogEntries !in txns && LogEntryAssignment !in txns
    ensures IsRun(cfg, states, steps) && |steps| == 2 && states[0] == EMPTY
    ensures states[2] == EMPTY.(relations := states[2].relations)
    ensures entryDay in Covered(states[2].relations, LogEntries) && txnDay in Covered(states[2].relations, LogTransactions)
  {
    ProvisionedDay(map[], logs, entryDay, LogEntries);
    var first := Added(logs, [entryDay]) + map[];
    ProvisionedDay(first, txns, txnDay, LogTransactions);
    ProvisionCovers(first, txns, [txnDay], LogEntries, entryDay);
    MayProvision(cfg, EMPTY, logs, [entryDay]);
    states, steps := OneMoreStep(cfg, [EMPTY], [], Provision(logs, [entryDay]));
    MayProvision(cfg, states[1], txns, [txnDay]);
    states, steps := OneMoreStep(cfg, states, steps, Provision(txns, [txnDay]));
  }

  /** Both log tables and the transactions are provisioned, an entry comes in and is assigned, and a stitch window opens
      inside the day before it. */
  lemma GapState(cfg: Settings, txnDay: Date, entryDay: Date, e: Entry, w: Window) returns (states: seq<State>, steps: seq<Step>)
    requires Ready(LogEntries, entryDay) && Ready(LogEntryAssignment, entryDay) && Ready(LogTransactions, txnDay)
    ensures IsRun(cfg, states, steps) && |steps| == 5 && states[0] == EMPTY
    ensures var s := states[5];
      && s.cursors == map[] && s.windows == {w}
      && e in s.entries && Assignment(e.id, e.customer, e.timestamp) in s.assignments
      && entryDay in Covered(s.relations, LogEntries) && txnDay in Covered(s.relations, LogTransactions)
  {
    states, steps := ProvisionedTables(cfg, txnDay, entryDay);
    states, steps := OneMoreStep(cfg, states, steps, Insert(e));
    states, steps := OneMoreStep(cfg, states, steps, Assign(e));
    states, steps := OneMoreStep(cfg, states, steps, Stitch({w}));
  }

  lemma EntryGoesWithItsDay(cfg: Settings, s: State, step: Step, entryDay: Date, e: Entry)
    requires step.DropExpired? && Enabled(cfg, s, step)
    requires entryDay in Covered(s.relations, LogEntries)
    requires Ready(LogEntries, entryDay) && PartitionGoes(cfg, s, step, LogEntries, entryDay)
    requires e.timestamp.Some? && DayOf(e.timestamp.value) == entryDay
    ensures e !in Apply(cfg, s, step).entries
  {
    LivesInItsOwnDay(s.relations, DropNames(cfg, s, step), LogEntries, e.timestamp.value);
  }

  /** It can happen, from an empty database: a window inside 1 March keeps that day's transactions while an entry of
      2 March, which one of them may own, is dropped. */
  lemma StitchingCanOutliveTheEntries()
    returns (cfg: Settings, states: seq<State>, steps: seq<Step>, txnDay: Date, entryDay: Date, e: Entry)
    ensures IsRun(cfg, states, steps) && |steps| == 6 && states[0] == EMPTY
    ensures LeavesTransactionsBehind(cfg, states[5], steps[5], txnDay, entryDay)
    ensures e.timestamp.Some? && DayOf(e.timestamp.value) == entryDay
    ensures e in states[5].entries && e !in states[6].entries
    ensures Assignment(e.id, e.customer, e.timestamp) in states[5].assignments
  {
    var today: Date;
    txnDay, entryDay, today := RawDate(2026, 3, 1), RawDate(2026, 3, 2), RawDate(2030, 1, 1);
    ExampleDays(txnDay, entryDay, today);
    cfg := Settings(60, 3600, false);
    e := EntryAtMidnight(entryDay);
    states, steps := GapRun(cfg, txnDay, entryDay, today, e);
  }

  lemma GapRun(cfg: Settings, txnDay: Date, entryDay: Date, today: Date, e: Entry)
    returns (states: seq<State>, steps: seq<Step>)
    requires cfg == Settings(60, 3600, false) && Ordinal(entryDay) == Ordinal(txnDay) + 1
    requires Ready(LogEntries, entryDay) && Ready(LogEntryAssignment, entryDay) && Ready(LogTransactions, txnDay)
    requires Ordinal(entryDay) < Ordinal(today) - 61 && 366 < Ordinal(today) <= MAX_ORDINAL
    requires e.timestamp.Some? && DayOf(e.timestamp.value) == entryDay
    ensures IsRun(cfg, states, steps) && |steps| == 6 && states[0] == EMPTY
    ensures LeavesTransactionsBehind(cfg, states[5], steps[5], txnDay, entryDay)
    ensures e in states[5].entries && e !in states[6].entries
    ensures Assignment(e.id, e.customer, e.timestamp) in states[5].assignments
  {
    var noon := DayStart(txnDay) + DAY / 2;
    var drop := DropExpired(today, None, false);
    states, steps := GapState(cfg, txnDay, entryDay, e, Window(noon, noon));
    RunsKeepInv(cfg, states, steps, 5);
    GapIsLeft(cfg, states[5], drop, txnDay, entryDay, noon);
    states, steps := DropAtGap(cfg, states, steps, drop, txnDay, entryDay, e);
  }

  lemma DropAtGap(cfg: Settings, states: seq<State>, steps: seq<Step>, drop: Step, txnDay: Date, entryDay: Date, e: Entry)
    returns (longer: seq<State>, done: seq<Step>)
    requires IsRun(cfg, states, steps) && LeavesTransactionsBehind(cfg, states[|steps|], drop, txnDay, entryDay)
    requires entryDay in Covered(states[|steps|].relations, LogEntries)
    requires e.timestamp.Some? && DayOf(e.timestamp.value) == entryDay
    ensures IsRun(cfg, longer, done) && |done| == |steps| + 1 && longer[0] == states[0]
    ensures longer[|steps|] == states[|steps|] && done[|steps|] == drop
    ensures e !in longer[|done|].entries
  {
    EntryGoesWithItsDay(cfg, states[|steps|], drop, entryDay, e);
    longer, done := OneMoreStep(cfg, states, steps, drop);
  }

  function EntryAtMidnight(day: Date): (e: Entry)
    ensures e.timestamp.Some? && DayOf(e.timestamp.value) == day
  {
    OrdinalBounds(day);
    DayOfIsUnique(DayStart(day), day);
    Entry(1, "acme", Some(DayStart(day)))
  }

  lemma GapIsLeft(cfg: Settings, s: State, step: Step, txnDay: Date, entryDay: Date, noon: Instant)
    requires Inv(cfg, s) && s.cursors == map[] && s.windows == {Window(noon, noon)}
    requires noon == DayStart(txnDay) + DAY / 2
    requires step.DropExpired? && step.floor == None && !step.unhealthy && cfg == Settings(60, 3600, false)
    requires Ordinal(entryDay) == Ordinal(txnDay) + 1
    requires Ready(LogEntries, entryDay) && Ready(LogTransactions, txnDay)
    requires entryDay in Covered(s.relations, LogEntries) && txnDay in Covered(s.relations, LogTransactions)
    requires Ordinal(entryDay) < Ordinal(step.today) - 61
    requires 366 < Ordinal(step.today) <= MAX_ORDINAL
    ensures LeavesTransactionsBehind(cfg, s, step, txnDay, entryDay)
  {
    GapIsDue(cfg, s, step, entryDay);
    CoveredIsNamed(s.relations, LogTransactions, txnDay);
    EntriesOutliveTransactionsUnlessStitching(cfg, s, step, txnDay, entryDay);
    assert Window(noon, noon) in s.windows && Overlaps(DayStart(txnDay), DayStart(entryDay), Window(noon, noon));
  }
}
