// The clean-up script's choice of partitions to drop: by comparing the date at the end of a
// partition's NAME, as a string, with the first day to keep.

module KeepRecent {

  import opened Calendar
  import opened Catalogue
  import opened DateText
  import opened Grains
  import opened PartitionNames
  import opened Results
  import opened Sorting
  import opened Text

  const KEEP_FROM_SUFFIX := "2026_09_13"
  const KEPT_FROM: Date := RawDate(2026, 9, 13)
  const DAILY_PARENTS: seq<Table> := [LogEntries, LogEntryAssignment, LogTransactions]

  /** What the search for four, two and two digits at the end of a name finds; the end of a name is also
      just before a final newline. */
  function DaySuffix(name: string): Option<string> {
    var n := if name != "" && name[|name| - 1] == '\n' then |name| - 1 else |name|;
    if n >= 10 && DayShape(name[n - 10..n], '_') then Some(name[n - 10..n]) else None
  }

  predicate IsOld(name: string) {
    DaySuffix(name).Some? && LexLess(DaySuffix(name).value, KEEP_FROM_SUFFIX)
  }

  /** The old ones among every parent's partitions, parent by parent. */
  function OldNames(parents: seq<Table>, partitions: Table -> seq<string>): seq<string> {
    if parents == [] then []
    else Filter(IsOld, partitions(parents[0])) + OldNames(parents[1..], partitions)
  }

  lemma OneNameFurther(names: seq<string>, j: nat)
    requires j < |names|
    ensures Filter(IsOld, names[j..]) == (if IsOld(names[j]) then [names[j]] else []) + Filter(IsOld, names[j + 1..])
  {
    assert names[j..][1..] == names[j + 1..];
  }

  lemma OneParentFurther(parents: seq<Table>, i: nat, partitions: Table -> seq<string>)
    requires i < |parents|
    ensures OldNames(parents[i..], partitions)
         == Filter(IsOld, partitions(parents[i])) + OldNames(parents[i + 1..], partitions)
  {
    assert parents[i..][1..] == parents[i + 1..];
  }

  method SelectDrops(partitions: Table -> seq<string>) returns (drops: seq<string>)
    ensures drops == OldNames(DAILY_PARENTS, partitions)
  {
    drops := [];
    for i := 0 to |DAILY_PARENTS|
      invariant OldNames(DAILY_PARENTS, partitions) == drops + OldNames(DAILY_PARENTS[i..], partitions)
    {
      ghost var before := drops;
      var names := partitions(DAILY_PARENTS[i]);
      for j := 0 to |names|
        invariant drops + Filter(IsOld, names[j..]) == before + Filter(IsOld, names)
      {
        OneNameFurther(names, j);
        var m := DaySuffix(names[j]);
        if m.Some? && LexLess(m.value, KEEP_FROM_SUFFIX) {
          drops := drops + [names[j]];
        }
      }
      OneParentFurther(DAILY_PARENTS, i, partitions);
      assert drops == before + Filter(IsOld, names);
    }
  }

  // ---------------------------------------------------------------- what gets selected

  lemma SuffixAtEnd(front: string, suffix: string)
    requires DayShape(suffix, '_')
    ensures DaySuffix(front + suffix) == Some(suffix)
  {
    var name := front + suffix;
    var n := |name|;
    assert IsDigit(suffix[8..][1]);
    assert name[n - 1] == suffix[9];
    assert name[n - 10..n] == suffix;
  }

  lemma KeptFields()
    ensures Pow10(2) == 100 && Pow10(4) == 10000
    ensures Pad(2026, 4) == "2026" && Pad(9, 2) == "09" && Pad(13, 2) == "13"
  {
    Widths();
    TwoDigits(0, 2, 0, 0);
    TwoDigits(20, 2, 6, 2);
    TwoDigits(0, 0, 9, 0);
    TwoDigits(0, 1, 3, 0);
  }

  lemma KeptSuffixIsKeptDay()
    ensures Printable(KEPT_FROM) && DayText(KEPT_FROM, '_') == KEEP_FROM_SUFFIX
  {
    KeptFields();
  }

  /** String comparison on names picks a daily partition exactly when its day is before the kept one. */
  lemma OldIffBeforeKeptDay(table: Table, day: Date)
    requires GrainOf(table) == Daily && Printable(day)
    ensures IsOld(PartitionName(table, day)) <==> Ordinal(day) < Ordinal(KEPT_FROM)
  {
    var suffix := DayText(day, '_');
    DayTextShape(day, '_');
    assert PartitionName(table, day) == (TableName(table) + "_") + suffix;
    SuffixAtEnd(TableName(table) + "_", suffix);
    KeptSuffixIsKeptDay();
    DayTextOrder(day, KEPT_FROM, '_');
  }

  lemma DatedNamesEndInDigits(name: string)
    ensures DaySuffix(name).Some? ==> name != "" && (IsDigit(name[|name| - 1]) || name[|name| - 1] == '\n')
  {
    var n := |name|;
    if n >= 10 && DayShape(name[n - 10..n], '_') {
      assert name[n - 1] == name[n - 10..n][8..][1];
    }
  }

  /** Midnight in London on the kept day, which is still the day before in UTC; the bookkeeping rows are cut there. */
  const HOUR: int := 3_600_000_000      // in microseconds
  const LAST_OLD: Date := RawDate(2026, 9, 12)

  function Cutoff(): Instant {
    DayStart(LAST_OLD) + 23 * HOUR
  }

  lemma CutoffIsTheHourBefore()
    ensures Cutoff() + 60 * 60 * 1_000_000 == DayStart(KEPT_FROM)
  {
    DayBeforeKept();
  }

  /** A final newline does not hide the date before it. */
  lemma NewlineHidesNothing(name: string)
    requires name == "" || name[|name| - 1] != '\n'
    ensures DaySuffix(name + "\n") == DaySuffix(name)
    ensures DaySuffix(name).Some? <==> |name| >= 10 && DayShape(name[|name| - 10..], '_')
    ensures DaySuffix(name).Some? ==> DaySuffix(name).value == name[|name| - 10..]
  {
    var n := |name|;
    if n >= 10 {
      assert (name + "\n")[n - 10..n] == name[n - 10..n] == name[n - 10..];
    }
  }

  ghost predicate HoldsKeptInstant(day: Date) {
    exists t: Instant :: InCalendar(t) && DayOf(t) == day && Cutoff() <= t
  }

  lemma DayBeforeKept()
    ensures Ordinal(KEPT_FROM) == Ordinal(LAST_OLD) + 1
  {
  }

  lemma HoldsKeptInstantIff(day: Date)
    ensures HoldsKeptInstant(day) <==> Ordinal(LAST_OLD) <= Ordinal(day)
  {
    OrdinalBounds(day);
    OrdinalBounds(LAST_OLD);
    if Ordinal(LAST_OLD) <= Ordinal(day) {
      var t := DayStart(day) + 23 * HOUR;
      DayOfIsUnique(t, day);
      assert InCalendar(t) && DayOf(t) == day && Cutoff() <= t;
    }
  }

  /** The two cut-offs disagree by the first London hour of the kept day: of the daily partitions that are dropped,
      exactly that of 12 September holds instants at or after the cut-off. */
  lemma DroppedKeptInstantsIff(table: Table, day: Date)
    requires GrainOf(table) == Daily && Printable(day)
    ensures IsOld(PartitionName(table, day)) && HoldsKeptInstant(day) <==> day == LAST_OLD
  {
    OldIffBeforeKeptDay(table, day);
    HoldsKeptInstantIff(day);
    DayBeforeKept();
    OrdinalIsOrder(day, LAST_OLD);
  }

  lemma DefaultIsNeverOld(table: Table)
    ensures !IsOld(DefaultPartitionName(table))
  {
    var name := DefaultPartitionName(table);
    assert name[|name| - 1] == 't';
    DatedNamesEndInDigits(name);
  }

  lemma {:induction false} OldNamesAreExact(parents: seq<Table>, partitions: Table -> seq<string>, name: string)
    ensures name in OldNames(parents, partitions)
       <==> IsOld(name) && exists i :: 0 <= i < |parents| && name in partitions(parents[i])
  {
    if parents != [] {
      OldNamesAreExact(parents[1..], partitions, name);
      FilterMembers(IsOld, partitions(parents[0]));
      if i :| 0 <= i < |parents| && name in partitions(parents[i]) {
        assert i > 0 ==> parents[i] == parents[1..][i - 1];
      }
    }
  }

  /** `partitions` lists what each parent has in the catalogue, DEFAULT included. */
  ghost predicate Lists(partitions: Table -> seq<string>, relations: Relations) {
    forall table, name :: name in partitions(table)
      <==> name in relations && (relations[name].Dated? || relations[name].DefaultOf?) && relations[name].table == table
  }

  /** Of a consistent catalogue the script drops exactly the daily log partitions dated before the kept
      day: never DEFAULT, never a parent, never another table's partition. */
  lemma DropsAreExact(partitions: Table -> seq<string>, relations: Relations, name: string)
    requires Consistent(relations) && Lists(partitions, relations) && name in relations
    ensures name in OldNames(DAILY_PARENTS, partitions)
       <==> (&& relations[name].Dated? && relations[name].table in DAILY_PARENTS
             && Ordinal(relations[name].from) < Ordinal(KEPT_FROM))
  {
    OldNamesAreExact(DAILY_PARENTS, partitions, name);
    assert WellNamed(name, relations[name]);
    match relations[name]
    case Dated(table, from, to) =>
      if table in DAILY_PARENTS {
        OldIffBeforeKeptDay(table, from);
        assert name in partitions(table);
      }
    case DefaultOf(table) => DefaultIsNeverOld(table);
    case Parent(table) =>
    case Unrelated =>
  }
}
