// The feed page: rows arrive unordered, are bucketed by transaction and sorted bucket by bucket,
// in place of one global ORDER BY.

module Feed {

  import opened Results
  import opened Sorting

  datatype Entry = Entry(id: nat, lineNumber: Option<int>)

  /** The position in the transaction, and the entry. */
  type Pair = (Option<int>, Entry)

  datatype Row = Row(txn: string, pair: Pair)

  datatype SortKey = SortKey(noSeq: bool, sequence: int, noLine: bool, line: int)

  function OrZero(x: Option<int>): int {
    if x.Some? then x.value else 0
  }

  function AssignedSortKey(pair: Pair): SortKey {
    SortKey(pair.0.None?, OrZero(pair.0), pair.1.lineNumber.None?, OrZero(pair.1.lineNumber))
  }

  /** `False < True`. */
  predicate FlagLess(a: bool, b: bool) {
    !a && b
  }

  /** Tuple comparison, field by field. */
  predicate KeyLeq(a: SortKey, b: SortKey) {
    if a.noSeq != b.noSeq then FlagLess(a.noSeq, b.noSeq)
    else if a.sequence != b.sequence then a.sequence < b.sequence
    else if a.noLine != b.noLine then FlagLess(a.noLine, b.noLine)
    else a.line <= b.line
  }

  function ByKey(): (Pair, Pair) -> bool {
    (a: Pair, b: Pair) => KeyLeq(AssignedSortKey(a), AssignedSortKey(b))
  }

  function PairOf(): Row -> Pair {
    (r: Row) => r.pair
  }

  function OwnedBy(txn: string): Row -> bool {
    (r: Row) => r.txn == txn
  }

  /** `ORDER BY seq NULLS LAST, line_number NULLS LAST` over all rows of the page. */
  function GlobalOrder(): (Row, Row) -> bool {
    Through(ByKey(), PairOf())
  }

  // ---------------------------------------------------------------- the key

  /** Strictly earlier under ASC NULLS LAST. */
  predicate EarlierNullsLast(a: Option<int>, b: Option<int>) {
    a.Some? && (b.None? || a.value < b.value)
  }

  /** The key orders as the SQL does, and never takes NULL for 0. */
  lemma KeyIsNullsLast(a: Pair, b: Pair)
    ensures ByKey()(a, b)
       <==> || EarlierNullsLast(a.0, b.0)
            || (a.0 == b.0 && !EarlierNullsLast(b.1.lineNumber, a.1.lineNumber))
    ensures ByKey()(a, b) && ByKey()(b, a) <==> a.0 == b.0 && a.1.lineNumber == b.1.lineNumber
  {
  }

  lemma KeyIsTotalPreorder()
    ensures TotalPreorder(ByKey())
    ensures TotalPreorder(GlobalOrder())
  {
  }

  // ---------------------------------------------------------------- grouping and rendering

  function Bucket(rows: seq<Row>, txn: string): seq<Pair> {
    Map(PairOf(), Filter(OwnedBy(txn), rows))
  }

  ghost predicate Appears(rows: seq<Row>, txn: string) {
    exists r | r in rows :: r.txn == txn
  }

  ghost predicate Grouped(rows: seq<Row>, byTxn: map<string, seq<Pair>>) {
    && (forall txn :: txn in byTxn <==> Appears(rows, txn))
    && (forall txn | txn in byTxn :: byTxn[txn] == Bucket(rows, txn))
  }

  /** `by_txn.setdefault(row.txn, []).append(row.pair)`. */
  function Appended(byTxn: map<string, seq<Pair>>, row: Row): map<string, seq<Pair>> {
    byTxn[row.txn := (if row.txn in byTxn then byTxn[row.txn] else []) + [row.pair]]
  }

  lemma AppendedIsGrouped(rows: seq<Row>, byTxn: map<string, seq<Pair>>, row: Row)
    requires Grouped(rows, byTxn)
    ensures Grouped(rows + [row], Appended(byTxn, row))
  {
    GrowBuckets(rows, row);
    if row.txn !in byTxn {
      EmptyBucket(rows, row.txn);
    }
    forall txn ensures txn in Appended(byTxn, row) <==> Appears(rows + [row], txn) {
      if Appears(rows, txn) {
        var r :| r in rows && r.txn == txn;
        assert r in rows + [row];
      }
      assert row in rows + [row];
    }
  }

  method GroupByTransaction(rows: seq<Row>) returns (byTxn: map<string, seq<Pair>>)
    ensures forall txn :: txn in byTxn <==> Appears(rows, txn)
    ensures forall txn | txn in byTxn :: byTxn[txn] == Bucket(rows, txn)
  {
    byTxn := map[];
    for i := 0 to |rows|
      invariant Grouped(rows[..i], byTxn)
    {
      var row := rows[i];
      assert rows[..i + 1] == rows[..i] + [row];
      AppendedIsGrouped(rows[..i], byTxn, row);
      var bucket := if row.txn in byTxn then byTxn[row.txn] else [];
      byTxn := byTxn[row.txn := bucket + [row.pair]];
    }
    assert rows[..|rows|] == rows;
  }

  lemma GrowBuckets(rows: seq<Row>, row: Row)
    ensures forall txn ::
      Bucket(rows + [row], txn) == Bucket(rows, txn) + if row.txn == txn then [row.pair] else []
  {
    forall txn ensures Bucket(rows + [row], txn) == Bucket(rows, txn) + if row.txn == txn then [row.pair] else [] {
      FilterAppend(OwnedBy(txn), rows, [row]);
      MapAppend(PairOf(), Filter(OwnedBy(txn), rows), Filter(OwnedBy(txn), [row]));
    }
  }

  lemma EmptyBucket(rows: seq<Row>, txn: string)
    requires !Appears(rows, txn)
    ensures Bucket(rows, txn) == []
  {
    FilterMembers(OwnedBy(txn), rows);
    if Filter(OwnedBy(txn), rows) != [] {
      assert Filter(OwnedBy(txn), rows)[0] in rows;
    }
  }

  method SortBuckets(byTxn: map<string, seq<Pair>>) returns (sorted: map<string, seq<Pair>>)
    ensures sorted.Keys == byTxn.Keys
    ensures forall txn | txn in byTxn :: sorted[txn] == StableSort(ByKey(), byTxn[txn])
  {
    sorted := byTxn;
    var todo := byTxn.Keys;
    while todo != {}
      invariant todo <= byTxn.Keys && sorted.Keys == byTxn.Keys
      invariant forall txn | txn in byTxn ::
        sorted[txn] == if txn in todo then byTxn[txn] else StableSort(ByKey(), byTxn[txn])
      decreases todo
    {
      var txn :| txn in todo;
      sorted := sorted[txn := StableSort(ByKey(), sorted[txn])];
      todo := todo - {txn};
    }
  }

  method GroupAndSort(rows: seq<Row>) returns (byTxn: map<string, seq<Pair>>)
    ensures forall txn :: txn in byTxn <==> Appears(rows, txn)
    ensures forall txn | txn in byTxn :: byTxn[txn] == StableSort(ByKey(), Bucket(rows, txn))
  {
    var grouped := GroupByTransaction(rows);
    byTxn := SortBuckets(grouped);
    forall txn ensures txn in byTxn <==> Appears(rows, txn) {
      assert txn in byTxn <==> txn in grouped;
    }
    forall txn | txn in byTxn ensures byTxn[txn] == StableSort(ByKey(), Bucket(rows, txn)) {
      assert txn in grouped;
    }
  }

  function EntryOf(): Pair -> Entry {
    (p: Pair) => p.1
  }

  /** What the page shows for one transaction, had all rows been sorted at once. */
  function GloballySorted(rows: seq<Row>, txn: string): seq<Entry> {
    Map(EntryOf(), Map(PairOf(), Filter(OwnedBy(txn), StableSort(GlobalOrder(), rows))))
  }

  lemma BucketSortIsGlobalSort(rows: seq<Row>, txn: string)
    ensures StableSort(ByKey(), Bucket(rows, txn)) == Map(PairOf(), Filter(OwnedBy(txn), StableSort(GlobalOrder(), rows)))
  {
    KeyIsTotalPreorder();
    FilterCommutesWithSort(GlobalOrder(), OwnedBy(txn), rows);
    SortCommutesWithMap(ByKey(), PairOf(), Filter(OwnedBy(txn), rows));
  }

  /** However a bucket is sorted in place: if its keys ascend and ties keep the order they came in, it is the
      transaction's share of one stable sort of all rows. */
  lemma AnyStableSortIsGlobalSort(rows: seq<Row>, txn: string, bucket: seq<Pair>)
    requires SortedBy(ByKey(), bucket)
    requires forall e :: Filter(SameKey(ByKey(), e), bucket) == Filter(SameKey(ByKey(), e), Bucket(rows, txn))
    ensures bucket == Map(PairOf(), Filter(OwnedBy(txn), StableSort(GlobalOrder(), rows)))
  {
    KeyIsTotalPreorder();
    OnlyStableSort(ByKey(), Bucket(rows, txn), bucket);
    BucketSortIsGlobalSort(rows, txn);
  }

  /** `[e for _seq, e in by_txn.get(t.id, [])]`. */
  function BlockOf(byTxn: map<string, seq<Pair>>, txn: string): seq<Entry> {
    Map(EntryOf(), if txn in byTxn then byTxn[txn] else [])
  }

  lemma BlockIsGlobalSort(rows: seq<Row>, byTxn: map<string, seq<Pair>>, txn: string)
    requires txn in byTxn <==> Appears(rows, txn)
    requires txn in byTxn ==> byTxn[txn] == StableSort(ByKey(), Bucket(rows, txn))
    ensures BlockOf(byTxn, txn) == GloballySorted(rows, txn)
  {
    BucketSortIsGlobalSort(rows, txn);
    if txn !in byTxn {
      EmptyBucket(rows, txn);
    }
  }

  method RenderBlocks(byTxn: map<string, seq<Pair>>, txns: seq<string>) returns (blocks: seq<seq<Entry>>)
    ensures |blocks| == |txns|
    ensures forall i | 0 <= i < |txns| :: blocks[i] == BlockOf(byTxn, txns[i])
  {
    blocks := [];
    for i := 0 to |txns|
      invariant |blocks| == i
      invariant forall j | 0 <= j < i :: blocks[j] == BlockOf(byTxn, txns[j])
    {
      blocks := blocks + [BlockOf(byTxn, txns[i])];
    }
  }

  /** Each transaction's block is exactly its share of one global stable sort of the page. */
  method Render(rows: seq<Row>, txns: seq<string>) returns (blocks: seq<seq<Entry>>)
    ensures |blocks| == |txns|
    ensures forall i | 0 <= i < |txns| :: blocks[i] == GloballySorted(rows, txns[i])
  {
    var byTxn := GroupAndSort(rows);
    blocks := RenderBlocks(byTxn, txns);
    forall i | 0 <= i < |txns| ensures blocks[i] == GloballySorted(rows, txns[i]) {
      BlockIsGlobalSort(rows, byTxn, txns[i]);
    }
  }

  /** Every row lands in exactly one bucket, as often as it came. */
  lemma RowsLandOnce(rows: seq<Row>, row: Row, txn: string)
    ensures Count(Filter(OwnedBy(txn), rows), row) == if row.txn == txn then Count(rows, row) else 0
  {
    FilterCounts(OwnedBy(txn), rows, row);
  }
}
