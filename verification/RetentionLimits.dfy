// What a drop takes and what it leaves, told in tables, numbers of days, cursors and windows.

module RetentionLimits {

  import opened Calendar
  import opened Catalogue
  import opened Cursors
  import opened Grains
  import opened PartitionNames
  import opened Partitioning
  import opened Results
  import opened Retention

  /** A partition that ends before `end` has been kept as long as its table keeps anything: four tables keep it for ever. */
  predicate PastLimit(table: Table, end: Date, today: Date, cfg: Settings) {
    match table
    case AnalyticsFacts => false
    case AnalyticsFactLedger => false
    case AnalyticsDailyRollups => false
    case AnalyticsRecordFacts => false
    case AnalyticsHourlyRollups => Ordinal(end) + 90 <= Ordinal(today)
    case AnalyticsQualityIssues => Ordinal(end) + 365 <= Ordinal(today)
    case LogTransactions => Ordinal(end) + cfg.retentionDays <= Ordinal(today)
    case LogEntries => Ordinal(end) + cfg.retentionDays + 1 <= Ordinal(today)
    case LogEntryAssignment => Ordinal(end) + cfg.retentionDays + 1 <= Ordinal(today)
  }

  /** No open window reaches into the days from `from` to before `to`; a window's ends both count. */
  ghost predicate NoWindowTouches(windows: set<Window>, from: Date, to: Date) {
    forall w | w in windows :: DayStart(to) <= w.start || w.end < DayStart(from)
  }

  /** Every reader whose last report is no older than the limit in seconds has consumed everything before `to`. */
  predicate ReadersArePast(cursors: map<string, Cursor>, now: Instant, cfg: Settings, to: Date) {
    forall c | c in cursors && now <= cursors[c].updatedAt + cfg.staleAfter * 1_000_000 ::
      DayStart(to) <= cursors[c].position
  }

  /** Analytics that may have to be repaired keeps what it would be repaired from. */
  predicate AnalyticsAllows(table: Table, cfg: Settings, unhealthy: bool) {
    cfg.analyticsGate && unhealthy ==> table != LogEntries && table != LogTransactions && table != LogEntryAssignment
  }

  lemma EveryDayBeforeIffEnd(grain: Grain, start: Date, ordinal: int)
    requires IsStart(grain, start) && HasNext(grain, start)
    ensures EveryDayBefore(grain, start, ordinal) <==> Ordinal(NextPeriodStart(grain, start)) <= ordinal
  {
    var end := PeriodEnd(grain, start);
    StartIsBefore(grain, start);
    NextIsAfter(grain, start);
    PeriodIsInterval(grain, start, end);
    forall day: Date | PeriodStart(grain, day) == start ensures Ordinal(day) < Ordinal(NextPeriodStart(grain, start)) {
      PeriodIsInterval(grain, start, day);
    }
  }

  lemma LimitIs(table: Table, end: Date, today: Date, cfg: Settings)
    ensures PastLimit(table, end, today, cfg) <==>
      RetentionDaysFor(table, cfg).Some? && Ordinal(end) <= Ordinal(today) - RetentionDaysFor(table, cfg).value
  {
  }

  lemma CoveredPeriod(relations: Relations, name: string)
    requires Consistent(relations) && name in relations && relations[name].Dated?
    ensures var r := relations[name];
      && r.from in Covered(relations, r.table) && IsStart(GrainOf(r.table), r.from) && HasNext(GrainOf(r.table), r.from)
      && r.to == NextPeriodStart(GrainOf(r.table), r.from)
  {
    assert WellNamed(name, relations[name]);
  }

  lemma DueIffPastLimit(relations: Relations, name: string, today: Date, cfg: Settings)
    requires Consistent(relations) && name in relations && relations[name].Dated?
    requires CutoffExists(relations[name].table, today, cfg)
    ensures var r := relations[name];
      Due(relations, r.table, r.from, today, cfg) <==> PastLimit(r.table, r.to, today, cfg)
  {
    var r := relations[name];
    CoveredPeriod(relations, name);
    LimitIs(r.table, r.to, today, cfg);
    DueIsExact(relations, r.table, r.from, today, cfg);
    if RetentionDaysFor(r.table, cfg).Some? {
      EveryDayBeforeIffEnd(GrainOf(r.table), r.from, Ordinal(today) - RetentionDaysFor(r.table, cfg).value);
    }
  }

  lemma FloorHoldsIff(cursors: map<string, Cursor>, now: Instant, cfg: Settings, floor: Option<Instant>, to: Date)
    requires IsMinLive(cursors, now, cfg.staleAfter, floor)
    ensures BlocksUntil(DayStart(to), floor) <==> !ReadersArePast(cursors, now, cfg, to)
  {
  }

  lemma HeldIff(r: Relation, s: State, step: Step, cfg: Settings)
    requires r.Dated? && step.DropExpired? && IsMinLive(s.cursors, s.now, cfg.staleAfter, step.floor)
    ensures Held(r, s.windows, step.floor, cfg, step.unhealthy)
       <==> !(&& NoWindowTouches(s.windows, r.from, r.to) && ReadersArePast(s.cursors, s.now, cfg, r.to)
              && AnalyticsAllows(r.table, cfg, step.unhealthy))
  {
    FloorHoldsIff(s.cursors, s.now, cfg, step.floor, r.to);
    if !NoWindowTouches(s.windows, r.from, r.to) {
      var w :| w in s.windows && !(DayStart(r.to) <= w.start || w.end < DayStart(r.from));
      assert Overlaps(DayStart(r.from), DayStart(r.to), w);
    }
  }

  /** One drop, exactly: a relation goes if and only if it is a dated partition past its table's limit, no open window
      touches it, every live reader is past it, and analytics does not need it. */
  lemma DropIsExact(cfg: Settings, s: State, step: Step, name: string)
    requires step.DropExpired? && Enabled(cfg, s, step) && name in s.relations
    ensures var r := s.relations[name];
      name !in Apply(cfg, s, step).relations <==>
        && r.Dated? && PastLimit(r.table, r.to, step.today, cfg)
        && NoWindowTouches(s.windows, r.from, r.to) && ReadersArePast(s.cursors, s.now, cfg, r.to)
        && AnalyticsAllows(r.table, cfg, step.unhealthy)
    ensures name in Apply(cfg, s, step).relations ==> Apply(cfg, s, step).relations[name] == s.relations[name]
  {
    var r := s.relations[name];
    if r.Dated? {
      DueIffPastLimit(s.relations, name, step.today, cfg);
      HeldIff(r, s, step, cfg);
    }
    assert name in DropNames(cfg, s, step) <==> Goes(cfg, s, step, r);
  }

  /** It is put on record, with what was known; and nothing is struck off the record. */
  lemma DropIsRecorded(cfg: Settings, s: State, step: Step, name: string)
    requires step.DropExpired? && Enabled(cfg, s, step)
    ensures var t := Apply(cfg, s, step);
      && s.drops <= t.drops
      && (name in s.relations && name !in t.relations ==>
            Drop(s.relations[name], step.today, LivePositions(s, cfg), s.windows, step.unhealthy) in t.drops)
    ensures forall c :: c in LivePositions(s, cfg) <==>
      c in s.cursors && s.now <= s.cursors[c].updatedAt + cfg.staleAfter * 1_000_000
    ensures forall c | c in LivePositions(s, cfg) :: LivePositions(s, cfg)[c] == s.cursors[c].position
  {
  }

  /** A reader may report, a window may open or close, and rows may come, be freed or be purged, at any time; the clock only
      goes on. A report is kept as the position with the time it came. */
  lemma NothingElseIsRefused(cfg: Settings, s: State, consumer: string, position: Instant, later: Instant,
                             windows: set<Window>, e: Entry, freed: set<Assignment>, customer: string)
    ensures Enabled(cfg, s, Report(consumer, position)) && Enabled(cfg, s, Stitch(windows))
    ensures Enabled(cfg, s, Insert(e)) && Enabled(cfg, s, Unassign(freed)) && Enabled(cfg, s, Purge(customer))
    ensures Enabled(cfg, s, Tick(later)) <==> s.now <= later
    ensures Enabled(cfg, s, Assign(e)) <==> e in s.entries
    ensures var cursors := Apply(cfg, s, Report(consumer, position)).cursors;
      && consumer in cursors && cursors[consumer].position == position && cursors[consumer].updatedAt == s.now
      && (forall c | c != consumer :: (c in cursors <==> c in s.cursors) && (c in cursors ==> cursors[c] == s.cursors[c]))
  {
  }

  /** Provisioning is refused exactly if the tables of entries and assignments are not asked for together or a new
      partition would hold the day of a row there is, which sits in DEFAULT. */
  lemma ProvisionIsEnabledIff(cfg: Settings, s: State, tables: seq<Table>, days: seq<Date>)
    requires AllReady(tables, days)
    ensures Enabled(cfg, s, Provision(tables, days)) <==>
      && (LogEntries in tables <==> LogEntryAssignment in tables)
      && (forall name | name in Added(tables, days) && name !in s.relations ::
            var p := Added(tables, days)[name];
            && (forall e | e in s.entries && e.timestamp.Some? :: !Holds(p, LogEntries, DayOf(e.timestamp.value)))
            && (forall a | a in s.assignments && a.entryTs.Some? :: !Holds(p, LogEntryAssignment, DayOf(a.entryTs.value))))
  {
    forall table: Table, key: Option<Stamp>
      ensures LivesIn(Added(tables, days), Added(tables, days).Keys - s.relations.Keys, table, key) <==>
        key.Some? && exists name | name in Added(tables, days) && name !in s.relations ::
          Holds(Added(tables, days)[name], table, DayOf(key.value))
    {
      LivesInTheNew(s.relations, Added(tables, days), table, key);
    }
  }

  lemma LivesInTheNew(relations: Relations, added: Relations, table: Table, key: Option<Stamp>)
    ensures LivesIn(added, added.Keys - relations.Keys, table, key) <==>
      key.Some? && exists name | name in added && name !in relations :: Holds(added[name], table, DayOf(key.value))
  {
    assert forall name :: name in added.Keys - relations.Keys <==> name in added && name !in relations;
  }

  /** With it go exactly the rows that fall on its days. */
  lemma RowsGoWithTheirDay(cfg: Settings, s: State, step: Step, e: Entry, a: Assignment)
    requires step.DropExpired? && Enabled(cfg, s, step) && e in s.entries && a in s.assignments
    ensures var t := Apply(cfg, s, step);
      && (e !in t.entries <==> e.timestamp.Some? && exists name | name in s.relations && name !in t.relations ::
            Holds(s.relations[name], LogEntries, DayOf(e.timestamp.value)))
      && (a !in t.assignments <==> a.entryTs.Some? && exists name | name in s.relations && name !in t.relations ::
            Holds(s.relations[name], LogEntryAssignment, DayOf(a.entryTs.value)))
  {
    var t, names := Apply(cfg, s, step), DropNames(cfg, s, step);
    assert forall name | name in s.relations :: name in names <==> name !in t.relations;
  }

  /** Anything but a dated partition, and the partitions of the four tables that cannot be rebuilt. */
  predicate MustStay(r: Relation) {
    r.Dated? ==> r.table in {AnalyticsFacts, AnalyticsFactLedger, AnalyticsDailyRollups, AnalyticsRecordFacts}
  }

  /** Whatever the settings are: over the rest of any run such a relation is there, under its name and bounds. */
  lemma {:induction false} WhatMustStayStays(cfg: Settings, states: seq<State>, steps: seq<Step>, i: nat, j: nat,
                                             name: string)
    requires IsRun(cfg, states, steps) && i <= j < |states|
    requires name in states[i].relations && MustStay(states[i].relations[name])
    ensures name in states[j].relations && states[j].relations[name] == states[i].relations[name]
    decreases j
  {
    if i < j {
      var s, step := states[j - 1], steps[j - 1];
      WhatMustStayStays(cfg, states, steps, i, j - 1, name);
      assert Enabled(cfg, s, step) && states[j] == Apply(cfg, s, step);
      if step.DropExpired? {
        DropIsExact(cfg, s, step, name);
      }
    }
  }

  /** Over every run, each drop was of a dated partition past its table's limit, with no window touching it, every live
      reader past it, and analytics not in need of it. */
  lemma {:induction false} DropsWerePastTheirLimit(cfg: Settings, states: seq<State>, steps: seq<Step>, n: nat, d: Drop)
    requires IsRun(cfg, states, steps) && n < |states| && states[0].drops == {} && d in states[n].drops
    ensures d.partition.Dated?
    ensures PastLimit(d.partition.table, d.partition.to, d.today, cfg)
    ensures NoWindowTouches(d.windows, d.partition.from, d.partition.to)
    ensures forall c | c in d.live :: DayStart(d.partition.to) <= d.live[c]
    ensures AnalyticsAllows(d.partition.table, cfg, d.unhealthy)
    decreases n
  {
    var s, step := states[n - 1], steps[n - 1];
    assert Enabled(cfg, s, step) && states[n] == Apply(cfg, s, step);
    if d in s.drops {
      DropsWerePastTheirLimit(cfg, states, steps, n - 1, d);
    } else {
      var name :| name in DropNames(cfg, s, step)
        && d == Drop(s.relations[name], step.today, LivePositions(s, cfg), s.windows, step.unhealthy);
      DropIsExact(cfg, s, step, name);
      forall c | c in d.live ensures DayStart(d.partition.to) <= d.live[c] {
        assert c in s.cursors && IsLive(s.cursors[c].updatedAt, s.now, cfg.staleAfter);
      }
    }
  }
}
