// Which tables are partitioned, at which grain, and what each partition is called.

module PartitionNames {

  import opened Calendar
  import opened DateText
  import opened Grains
  import opened Results
  import opened Text

  datatype Table =
    | LogEntries | LogTransactions | LogEntryAssignment
    | AnalyticsFacts | AnalyticsFactLedger | AnalyticsHourlyRollups
    | AnalyticsDailyRollups | AnalyticsRecordFacts | AnalyticsQualityIssues

  const PARTITIONED: seq<Table> := [
    LogEntries, LogTransactions, LogEntryAssignment,
    AnalyticsFacts, AnalyticsFactLedger, AnalyticsHourlyRollups,
    AnalyticsDailyRollups, AnalyticsRecordFacts, AnalyticsQualityIssues]

  function TableName(table: Table): string {
    match table
    case LogEntries => "log_entries"
    case LogTransactions => "log_transactions"
    case LogEntryAssignment => "log_entry_assignment"
    case AnalyticsFacts => "analytics_facts"
    case AnalyticsFactLedger => "analytics_fact_ledger"
    case AnalyticsHourlyRollups => "analytics_hourly_rollups"
    case AnalyticsDailyRollups => "analytics_daily_rollups"
    case AnalyticsRecordFacts => "analytics_record_facts"
    case AnalyticsQualityIssues => "analytics_quality_issues"
  }

  function GrainOf(table: Table): Grain {
    match table
    case LogEntries => Daily
    case LogTransactions => Daily
    case LogEntryAssignment => Daily
    case AnalyticsFacts => Monthly
    case AnalyticsFactLedger => Monthly
    case AnalyticsHourlyRollups => Daily
    case AnalyticsDailyRollups => Yearly
    case AnalyticsRecordFacts => Monthly
    case AnalyticsQualityIssues => Monthly
  }

  /** The registry by name; an unregistered name is the source's KeyError. */
  function LookupIn(tables: seq<Table>, name: string): (r: Option<Table>)
    ensures r.Some? ==> r.value in tables && TableName(r.value) == name
    ensures r.None? ==> forall t | t in tables :: TableName(t) != name
  {
    if tables == [] then None
    else if TableName(tables[0]) == name then Some(tables[0])
    else LookupIn(tables[1..], name)
  }

  function Lookup(name: string): Option<Table> {
    LookupIn(PARTITIONED, name)
  }

  const MAX_IDENTIFIER := 63
  const DEFAULT_SUFFIX := "default"

  function Suffix(grain: Grain, start: Date): string
    requires Printable(start)
  {
    Widths();
    match grain
    case Daily => DayText(start, '_')
    case Monthly => Pad(start.year, 4) + ("_" + Pad(start.month, 2))
    case Yearly => Pad(start.year, 4)
  }

  function PartitionName(table: Table, day: Date): string
    requires Printable(day)
  {
    TableName(table) + ("_" + Suffix(GrainOf(table), PeriodStart(GrainOf(table), day)))
  }

  function DefaultPartitionName(table: Table): string {
    TableName(table) + ("_" + DEFAULT_SUFFIX)
  }

  // ---------------------------------------------------------------- the registry

  lemma EveryTableIsRegistered(table: Table)
    ensures table in PARTITIONED
  {
    match table
    case LogEntries => assert PARTITIONED[0] == table;
    case LogTransactions => assert PARTITIONED[1] == table;
    case LogEntryAssignment => assert PARTITIONED[2] == table;
    case AnalyticsFacts => assert PARTITIONED[3] == table;
    case AnalyticsFactLedger => assert PARTITIONED[4] == table;
    case AnalyticsHourlyRollups => assert PARTITIONED[5] == table;
    case AnalyticsDailyRollups => assert PARTITIONED[6] == table;
    case AnalyticsRecordFacts => assert PARTITIONED[7] == table;
    case AnalyticsQualityIssues => assert PARTITIONED[8] == table;
  }

  lemma LogNameShape(table: Table)
    requires table in {LogEntries, LogTransactions, LogEntryAssignment}
    ensures NoDigits(TableName(table))
    ensures 0 < |TableName(table)| <= 24
  {
  }

  lemma FactNameShape(table: Table)
    requires table in {AnalyticsFacts, AnalyticsFactLedger, AnalyticsRecordFacts}
    ensures NoDigits(TableName(table))
    ensures 0 < |TableName(table)| <= 24
  {
  }

  lemma RollupNameShape(table: Table)
    requires table in {AnalyticsHourlyRollups, AnalyticsDailyRollups, AnalyticsQualityIssues}
    ensures NoDigits(TableName(table))
    ensures 0 < |TableName(table)| <= 24
  {
  }

  lemma TableNameShape(table: Table)
    ensures NoDigits(TableName(table))
    ensures 0 < |TableName(table)| <= 24
  {
    if table in {LogEntries, LogTransactions, LogEntryAssignment} {
      LogNameShape(table);
    } else if table in {AnalyticsFacts, AnalyticsFactLedger, AnalyticsRecordFacts} {
      FactNameShape(table);
    } else {
      RollupNameShape(table);
    }
  }

  lemma TableNamesDiffer(a: Table, b: Table)
    requires TableName(a) == TableName(b)
    ensures a == b
  {
    var x, y := TableName(a), TableName(b);
    assert |x| == |y|;
    assert x[10] == y[10] && x[0] == y[0];
  }

  // ---------------------------------------------------------------- suffixes

  /** What a coarser suffix leaves unsaid about its start. */
  function SuffixRest(grain: Grain): string {
    match grain
    case Daily => ""
    case Monthly => "_01"
    case Yearly => "_01_01"
  }

  lemma SuffixIsPrefixOfDay(grain: Grain, start: Date)
    requires Printable(start) && IsStart(grain, start)
    ensures Suffix(grain, start) + SuffixRest(grain) == DayText(start, '_')
    ensures |Suffix(grain, start)| + |SuffixRest(grain)| == 10
    ensures IsDigit(Suffix(grain, start)[0])
  {
    Widths();
    DayTextShape(start, '_');
    ValueOfPad(start.year, 4);
    ValueOfPad(start.month, 2);
    ValueOfPad(1, 2);
    assert Pad(0, 1) == "0" && Pad(1, 2) == "01";
    if grain == Monthly {
      assert Suffix(grain, start) + "_01"
          == Pad(start.year, 4) + ("_" + (Pad(start.month, 2) + ("_" + "01")));
    } else if grain == Yearly {
      assert Suffix(grain, start) + "_01_01" == Pad(start.year, 4) + ("_" + ("01" + ("_" + "01")));
    }
  }

  function FirstDigit(s: string): (r: nat)
    ensures r <= |s| && NoDigits(s[..r]) && (r < |s| ==> IsDigit(s[r]))
  {
    if s == "" || IsDigit(s[0]) then 0
    else
      var k := FirstDigit(s[1..]);
      assert s[..1 + k] == [s[0]] + s[1..][..k];
      1 + k
  }

  lemma FirstDigitIsUnique(s: string, k: nat)
    requires k < |s| && NoDigits(s[..k]) && IsDigit(s[k])
    ensures FirstDigit(s) == k
  {
    var r := FirstDigit(s);
    forall i | 0 <= i < k ensures !IsDigit(s[i]) {
      assert s[i] == s[..k][i];
    }
    forall i | 0 <= i < r ensures !IsDigit(s[i]) {
      assert s[i] == s[..r][i];
    }
  }

  /** A digit-free parent, an underscore and a suffix that starts with a digit come apart again. */
  lemma SplitAtFirstDigit(parent: string, suffix: string)
    requires NoDigits(parent) && suffix != "" && IsDigit(suffix[0])
    ensures var name := parent + ("_" + suffix);
            var k := |parent| + 1;
            && FirstDigit(name) == k && k < |name| && name[k - 1] == '_'
            && name[..k - 1] == parent && name[k..] == suffix
  {
    var name := parent + ("_" + suffix);
    var k := |parent| + 1;
    assert name[..k] == parent + "_";
    assert name[..k - 1] == parent && name[k..] == suffix;
    FirstDigitIsUnique(name, k);
  }

  /** The table and the period start a partition name stands for. */
  function Decode(name: string): Option<(Table, Date)> {
    var k := FirstDigit(name);
    if k == 0 || k == |name| || name[k - 1] != '_' then None
    else
      match Lookup(name[..k - 1])
      case None => None
      case Some(table) =>
        var day := name[k..] + SuffixRest(GrainOf(table));
        if !DayShape(day, '_') then None
        else
          match ReadDay(day, '_')
          case None => None
          case Some(start) => Some((table, start))
  }

  lemma LookupOfName(table: Table)
    ensures Lookup(TableName(table)) == Some(table)
  {
    EveryTableIsRegistered(table);
    TableNamesDiffer(Lookup(TableName(table)).value, table);
  }

  lemma DecodeOfJoined(table: Table, suffix: string, start: Date)
    requires suffix != "" && IsDigit(suffix[0])
    requires DayShape(suffix + SuffixRest(GrainOf(table)), '_')
    requires ReadDay(suffix + SuffixRest(GrainOf(table)), '_') == Some(start)
    ensures Decode(TableName(table) + ("_" + suffix)) == Some((table, start))
  {
    TableNameShape(table);
    SplitAtFirstDigit(TableName(table), suffix);
    LookupOfName(table);
  }

  /** A partition name determines its table and its period, whatever day of the period it was made from. */
  lemma DecodeOfPartitionName(table: Table, day: Date)
    requires Printable(day)
    ensures Decode(PartitionName(table, day)) == Some((table, PeriodStart(GrainOf(table), day)))
    ensures |PartitionName(table, day)| <= MAX_IDENTIFIER
  {
    var grain := GrainOf(table);
    var start := PeriodStart(grain, day);
    TableNameShape(table);
    SuffixIsPrefixOfDay(grain, start);
    ReadDayOfDayText(start, '_');
    DecodeOfJoined(table, Suffix(grain, start), start);
  }

  /** A DEFAULT partition's name stands for no period. */
  lemma DefaultNameDoesNotDecode(table: Table)
    ensures Decode(DefaultPartitionName(table)) == None
  {
    TableNameShape(table);
    NoDigitsJoined(TableName(table), DEFAULT_SUFFIX);
  }

  lemma NoDigitsAppend(a: string, b: string)
    requires NoDigits(a) && NoDigits(b)
    ensures NoDigits(a + b)
  {
  }

  lemma NoFirstDigit(s: string)
    requires NoDigits(s)
    ensures FirstDigit(s) == |s|
  {
  }

  lemma NoDigitsJoined(a: string, b: string)
    requires NoDigits(a) && NoDigits(b)
    ensures FirstDigit(a + ("_" + b)) == |a + ("_" + b)|
  {
    NoDigitsAppend("_", b);
    NoDigitsAppend(a, "_" + b);
    NoFirstDigit(a + ("_" + b));
  }

  /** Two partition names are equal exactly when table and period are. */
  lemma PartitionNamesAreInjective(a: Table, x: Date, b: Table, y: Date)
    requires Printable(x) && Printable(y)
    ensures PartitionName(a, x) == PartitionName(b, y)
       <==> a == b && PeriodStart(GrainOf(a), x) == PeriodStart(GrainOf(b), y)
  {
    DecodeOfPartitionName(a, x);
    DecodeOfPartitionName(b, y);
  }

  lemma DecodedStart(grain: Grain, suffix: string, start: Date)
    requires DayShape(suffix + SuffixRest(grain), '_')
    requires ReadDay(suffix + SuffixRest(grain), '_') == Some(start) && Printable(start)
    ensures IsStart(grain, start)
  {
    var day := suffix + SuffixRest(grain);
    assert Value("01") == 1 by {
      assert "01"[..1] == "0" && Value("0") == 0;
    }
    if grain != Daily {
      assert day[8..] == "01";
    }
    if grain == Yearly {
      assert day[5..7] == "01";
    }
  }

  lemma SuffixOfDecoded(grain: Grain, suffix: string, start: Date)
    requires DayShape(suffix + SuffixRest(grain), '_')
    requires ReadDay(suffix + SuffixRest(grain), '_') == Some(start) && Printable(start)
    requires IsStart(grain, start)
    ensures Suffix(grain, start) == suffix
  {
    var rest := SuffixRest(grain);
    DayTextOfReadDay(suffix + rest, '_');
    SuffixIsPrefixOfDay(grain, start);
    assert (suffix + rest)[..|suffix|] == suffix;
    assert (Suffix(grain, start) + rest)[..|suffix|] == Suffix(grain, start);
  }

  lemma Recut(name: string, k: nat)
    requires 0 < k < |name| && name[k - 1] == '_'
    ensures name == name[..k - 1] + ("_" + name[k..])
  {
  }

  /** Conversely, a name that decodes to a printable start is the name of that partition. */
  lemma PartitionNameOfDecode(name: string)
    requires Decode(name).Some? && Printable(Decode(name).value.1)
    ensures var (table, start) := Decode(name).value;
            IsStart(GrainOf(table), start) && PartitionName(table, start) == name
  {
    var (table, start) := Decode(name).value;
    var k := FirstDigit(name);
    DecodedStart(GrainOf(table), name[k..], start);
    SuffixOfDecoded(GrainOf(table), name[k..], start);
    Recut(name, k);
  }

  // ---------------------------------------------------------------- the pattern

  predicate SuffixShape(s: string) {
    || (|s| == 10 && DayShape(s, '_'))
    || (|s| == 7 && AllDigits(s[..4]) && s[4] == '_' && AllDigits(s[5..]))
    || (|s| == 4 && AllDigits(s))
    || s == DEFAULT_SUFFIX
  }

  predicate MatchesFor(table: Table, name: string) {
    && TableName(table) + "_" <= name
    && SuffixShape(name[|TableName(table)| + 1..])
  }

  /** `re.fullmatch(partition_name_pattern(), name)`. */
  predicate MatchesPattern(name: string) {
    exists table | table in PARTITIONED :: MatchesFor(table, name)
  }

  lemma SuffixHasShape(grain: Grain, start: Date)
    requires Printable(start)
    ensures SuffixShape(Suffix(grain, start)) && Suffix(grain, start) != DEFAULT_SUFFIX
  {
    DayTextShape(start, '_');
    Widths();
    ValueOfPad(start.year, 4);
    ValueOfPad(start.month, 2);
    assert IsDigit(Suffix(grain, start)[0]) by {
      assert Suffix(grain, start)[0] == Pad(start.year, 4)[0];
    }
  }

  lemma EndsAfterUnderscore(parent: string, suffix: string)
    ensures var name := parent + ("_" + suffix);
      name[..|parent| + 1] == parent + "_" && name[|parent| + 1..] == suffix
  {
    var name := parent + ("_" + suffix);
    assert name[..|parent| + 1] == parent + "_";
    assert name[|parent| + 1..] == suffix;
  }

  lemma JoinedMatches(table: Table, suffix: string)
    requires SuffixShape(suffix)
    ensures MatchesPattern(TableName(table) + ("_" + suffix))
    ensures suffix != DEFAULT_SUFFIX ==> TableName(table) + ("_" + suffix) != DefaultPartitionName(table)
  {
    EndsAfterUnderscore(TableName(table), suffix);
    EndsAfterUnderscore(TableName(table), DEFAULT_SUFFIX);
    EveryTableIsRegistered(table);
    assert MatchesFor(table, TableName(table) + ("_" + suffix));
  }

  lemma PatternMatchesOurPartitions(table: Table, day: Date)
    requires Printable(day)
    ensures MatchesPattern(PartitionName(table, day))
    ensures MatchesPattern(DefaultPartitionName(table))
    ensures PartitionName(table, day) != DefaultPartitionName(table)
  {
    var grain := GrainOf(table);
    SuffixHasShape(grain, PeriodStart(grain, day));
    JoinedMatches(table, Suffix(grain, PeriodStart(grain, day)));
    JoinedMatches(table, DEFAULT_SUFFIX);
  }

  lemma ParentsDoNotEndInDefault(table: Table)
    ensures |TableName(table)| >= 2
    ensures TableName(table)[|TableName(table)| - 2] != 'l' || TableName(table)[|TableName(table)| - 1] != 't'
  {
  }

  lemma NotASuffix(s: string)
    requires NoDigits(s)
    requires |s| >= 2 ==> s[|s| - 2] != 'l' || s[|s| - 1] != 't'
    ensures !SuffixShape(s)
  {
    if |s| >= 4 {
      assert s[..4][0] == s[0];
    }
    assert DEFAULT_SUFFIX[5] == 'l' && DEFAULT_SUFFIX[6] == 't';
  }

  /** No parent table is ever taken for a partition. */
  lemma PatternSparesParents(parent: Table)
    ensures !MatchesPattern(TableName(parent))
  {
    TableNameShape(parent);
    ParentsDoNotEndInDefault(parent);
    forall table | table in PARTITIONED ensures !MatchesFor(table, TableName(parent)) {
      NotAPartitionOf(table, TableName(parent));
    }
  }

  lemma NotAPartitionOf(table: Table, name: string)
    requires NoDigits(name)
    requires |name| >= 2 && (name[|name| - 2] != 'l' || name[|name| - 1] != 't')
    ensures !MatchesFor(table, name)
  {
    if TableName(table) + "_" <= name {
      var s := name[|TableName(table)| + 1..];
      NotASuffix(s);
    }
  }

  /** `name` is `parent`, an underscore, and then a suffix that starts with a digit. */
  predicate NumberedUnder(parent: string, name: string) {
    && FirstDigit(name) == |parent| + 1 < |name|
    && name[|parent|] == '_'
    && name[..|parent|] == parent
  }

  /** Nothing is hidden but the DEFAULT partition and the numbered names of a registered parent. */
  lemma PatternHidesOnlyOurs(name: string)
    requires MatchesPattern(name)
    ensures exists table :: name == DefaultPartitionName(table) || NumberedUnder(TableName(table), name)
  {
    var table :| table in PARTITIONED && MatchesFor(table, name);
    TableNameShape(table);
    var suffix := name[|TableName(table)| + 1..];
    PrefixSplits(TableName(table), name);
    if suffix == DEFAULT_SUFFIX {
      assert name == DefaultPartitionName(table);
    } else {
      MatchSplits(TableName(table), suffix);
      assert NumberedUnder(TableName(table), name);
    }
  }

  lemma PrefixSplits(parent: string, name: string)
    requires parent + "_" <= name
    ensures name == parent + ("_" + name[|parent| + 1..])
  {
    var k := |parent| + 1;
    assert name[..k] == parent + "_";
    assert name == name[..k] + name[k..];
  }

  lemma MatchSplits(parent: string, suffix: string)
    requires NoDigits(parent) && SuffixShape(suffix) && suffix != DEFAULT_SUFFIX
    ensures NumberedUnder(parent, parent + ("_" + suffix))
  {
    SuffixStart(suffix);
    SplitAtFirstDigit(parent, suffix);
  }

  lemma SuffixStart(s: string)
    requires SuffixShape(s)
    ensures s == DEFAULT_SUFFIX || (s != "" && IsDigit(s[0]))
  {
    if s != DEFAULT_SUFFIX {
      assert s[..4][0] == s[0];
    }
  }

  // ---------------------------------------------------------------- at a day

  lemma FieldsOf15March2026()
    ensures Pow10(2) == 100 && Pow10(4) == 10000
    ensures Pad(2026, 4) == "2026" && Pad(3, 2) == "03" && Pad(15, 2) == "15" && Pad(1, 2) == "01"
  {
    Widths();
    TwoDigits(0, 2, 0, 0);
    TwoDigits(20, 2, 6, 2);
    TwoDigits(0, 0, 3, 0);
    TwoDigits(0, 1, 5, 0);
    TwoDigits(0, 0, 1, 0);
  }

  lemma NameOf15March2026(table: Table, day: Date)
    requires day == RawDate(2026, 3, 15)
    ensures PartitionName(table, day) ==
      TableName(table) + (match GrainOf(table) case Daily => "_2026_03_15" case Monthly => "_2026_03" case Yearly => "_2026")
  {
    FieldsOf15March2026();
    var suffix := Suffix(GrainOf(table), PeriodStart(GrainOf(table), day));
    match GrainOf(table)
    case Daily => assert "_" + suffix == "_2026_03_15";
    case Monthly => assert "_" + suffix == "_2026_03";
    case Yearly => assert "_" + suffix == "_2026";
  }

  /** The partitions in which 15 March 2026 lies, under the names they have in the database. */
  lemma NamesOf15March2026(day: Date)
    requires day == RawDate(2026, 3, 15)
    ensures PartitionName(LogEntries, day) == "log_entries" + "_2026_03_15"
    ensures PartitionName(LogTransactions, day) == "log_transactions" + "_2026_03_15"
    ensures PartitionName(LogEntryAssignment, day) == "log_entry_assignment" + "_2026_03_15"
    ensures PartitionName(AnalyticsHourlyRollups, day) == "analytics_hourly_rollups" + "_2026_03_15"
    ensures PartitionName(AnalyticsFacts, day) == "analytics_facts" + "_2026_03"
    ensures PartitionName(AnalyticsFactLedger, day) == "analytics_fact_ledger" + "_2026_03"
    ensures PartitionName(AnalyticsRecordFacts, day) == "analytics_record_facts" + "_2026_03"
    ensures PartitionName(AnalyticsQualityIssues, day) == "analytics_quality_issues" + "_2026_03"
    ensures PartitionName(AnalyticsDailyRollups, day) == "analytics_daily_rollups" + "_2026"
  {
    NameOf15March2026(LogEntries, day);
    NameOf15March2026(LogTransactions, day);
    NameOf15March2026(LogEntryAssignment, day);
    NameOf15March2026(AnalyticsHourlyRollups, day);
    NameOf15March2026(AnalyticsFacts, day);
    NameOf15March2026(AnalyticsFactLedger, day);
    NameOf15March2026(AnalyticsRecordFacts, day);
    NameOf15March2026(AnalyticsQualityIssues, day);
    NameOf15March2026(AnalyticsDailyRollups, day);
  }
}
