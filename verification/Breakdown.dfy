// The breakdown route's totals and ranking: readings are added up per dimension value, and the heaviest
// values lead. Decimal arithmetic is taken to be exact.

module Breakdown {

  import opened Results
  import opened Sorting

  /** The value of the one dimension asked for; a point without any is filed under None. */
  type Value = Option<string>

  datatype Point = Point(dimensions: seq<Value>, sum: Option<real>, count: Option<int>)

  datatype Bucket = Bucket(sum: real, count: int)

  datatype Ranked = Ranked(value: Value, bucket: Bucket)

  function KeyOf(p: Point): Value {
    if p.dimensions != [] then p.dimensions[0] else None
  }

  function SumOf(p: Point): real { if p.sum.Some? then p.sum.value else 0.0 }
  function CountOf(p: Point): int { if p.count.Some? then p.count.value else 0 }

  // ---------------------------------------------------------------- what the totals should be

  /** What the points of one dimension value add up to. */
  function Total(points: seq<Point>, value: Value): Bucket {
    if points == [] then Bucket(0.0, 0)
    else
      var n := |points| - 1;
      var before := Total(points[..n], value);
      if KeyOf(points[n]) == value
      then Bucket(before.sum + SumOf(points[n]), before.count + CountOf(points[n]))
      else before
  }

  /** The dimension values, in order of first appearance. */
  function Values(points: seq<Point>): seq<Value> {
    if points == [] then []
    else
      var n := |points| - 1;
      var before := Values(points[..n]);
      if KeyOf(points[n]) in before then before else before + [KeyOf(points[n])]
  }

  function Entries(points: seq<Point>): seq<Ranked> {
    Map((v: Value) => Ranked(v, Total(points, v)), Values(points))
  }

  function Abs(x: real): real { if x < 0.0 then -x else x }

  /** What a value is ranked by: its sum, or for a level its typical reading; nothing read weighs nothing. */
  function Weight(b: Bucket, isLevel: bool): real {
    if !isLevel then Abs(b.sum)
    else if b.count == 0 then 0.0
    else Abs(b.sum / b.count as real)
  }

  /** `key=-weight` as an order. */
  function HeaviestFirst(isLevel: bool): (Ranked, Ranked) -> bool {
    (a: Ranked, b: Ranked) => Weight(a.bucket, isLevel) >= Weight(b.bucket, isLevel)
  }

  function Take<T>(s: seq<T>, n: nat): seq<T> {
    if n <= |s| then s[..n] else s
  }

  function TopOf(points: seq<Point>, isLevel: bool, top: nat): seq<Ranked> {
    Take(StableSort(HeaviestFirst(isLevel), Entries(points)), top)
  }

  // ---------------------------------------------------------------- the route's loop

  method AnalyticsBreakdown(points: seq<Point>, isLevel: bool, top: nat) returns (rows: seq<Ranked>)
    ensures rows == TopOf(points, isLevel, top)
  {
    var totals: map<Value, Bucket> := map[];
    var order: seq<Value> := [];
    for i := 0 to |points|
      invariant order == Values(points[..i])
      invariant forall v :: v in totals <==> v in order
      invariant forall v | v in totals :: totals[v] == Total(points[..i], v)
    {
      assert points[..i + 1][..i] == points[..i];
      var key := KeyOf(points[i]);
      if key !in totals {
        AbsentTotal(points[..i], key);
        totals := totals[key := Bucket(0.0, 0)];
        order := order + [key];
      }
      var bucket := totals[key];
      totals := totals[key := Bucket(bucket.sum + SumOf(points[i]), bucket.count + CountOf(points[i]))];
    }
    assert points[..|points|] == points;
    var items := Items(order, totals);
    assert items == Entries(points);
    rows := Take(StableSort(HeaviestFirst(isLevel), items), top);
  }

  /** `totals.items()`: a dict keeps the order its keys were first set in. */
  method Items(order: seq<Value>, totals: map<Value, Bucket>) returns (items: seq<Ranked>)
    requires forall v | v in order :: v in totals
    ensures |items| == |order|
    ensures forall i | 0 <= i < |order| :: items[i] == Ranked(order[i], totals[order[i]])
  {
    items := [];
    for i := 0 to |order|
      invariant |items| == i
      invariant forall j | 0 <= j < i :: items[j] == Ranked(order[j], totals[order[j]])
    {
      items := items + [Ranked(order[i], totals[order[i]])];
    }
  }

  lemma {:induction false} AbsentTotal(points: seq<Point>, value: Value)
    requires value !in Values(points)
    ensures Total(points, value) == Bucket(0.0, 0)
  {
    if points != [] {
      AbsentTotal(points[..|points| - 1], value);
    }
  }

  lemma {:induction false} ValuesAreDistinct(points: seq<Point>)
    ensures NoDuplicates(Values(points))
    ensures forall v :: v in Values(points) <==> exists p | p in points :: KeyOf(p) == v
  {
    if points != [] {
      var n := |points| - 1;
      ValuesAreDistinct(points[..n]);
      assert points == points[..n] + [points[n]];
      assert points[n] in points;
    }
  }

  // ---------------------------------------------------------------- nothing is lost

  function SumAll(points: seq<Point>): Bucket {
    if points == [] then Bucket(0.0, 0)
    else
      var n := |points| - 1;
      var before := SumAll(points[..n]);
      Bucket(before.sum + SumOf(points[n]), before.count + CountOf(points[n]))
  }

  function SumOver(points: seq<Point>, values: seq<Value>): Bucket {
    if values == [] then Bucket(0.0, 0)
    else
      var n := |values| - 1;
      var before := SumOver(points, values[..n]);
      var last := Total(points, values[n]);
      Bucket(before.sum + last.sum, before.count + last.count)
  }

  lemma {:induction false} OneMorePoint(points: seq<Point>, values: seq<Value>)
    requires points != [] && NoDuplicates(values)
    ensures var n := |points| - 1;
      var p, before := points[n], SumOver(points[..n], values);
      SumOver(points, values) == if KeyOf(p) in values
        then Bucket(before.sum + SumOf(p), before.count + CountOf(p)) else before
  {
    if values != [] {
      var m, p := |values| - 1, points[|points| - 1];
      OneMorePoint(points, values[..m]);
      assert KeyOf(p) in values <==> KeyOf(p) in values[..m] || KeyOf(p) == values[m] by {
        assert values == values[..m] + [values[m]];
      }
      assert KeyOf(p) == values[m] ==> KeyOf(p) !in values[..m];
    }
  }

  /** The per-value sums and counts add up to those of all the points. */
  lemma {:induction false} TotalsAddUp(points: seq<Point>)
    ensures SumOver(points, Values(points)) == SumAll(points)
  {
    if points == [] {
      assert SumOver(points, []) == Bucket(0.0, 0);
    } else {
      var n := |points| - 1;
      var before := Values(points[..n]);
      TotalsAddUp(points[..n]);
      ValuesAreDistinct(points);
      ValuesAreDistinct(points[..n]);
      OneMorePoint(points, before);
      if KeyOf(points[n]) !in before {
        AbsentTotal(points[..n], KeyOf(points[n]));
        assert Values(points)[..|before|] == before;
      }
    }
  }

  /** One reading more: it is filed under its first dimension, or under none, and adds what it has to that alone. */
  lemma OneReadingMore(points: seq<Point>, p: Point, value: Value)
    ensures Total([], value) == Bucket(0.0, 0) && Values([]) == []
    ensures var before, after := Total(points, value), Total(points + [p], value);
      var mine := (p.dimensions == [] && value == None) || (p.dimensions != [] && p.dimensions[0] == value);
      && (after.sum == if mine && p.sum.Some? then before.sum + p.sum.value else before.sum)
      && (after.count == if mine && p.count.Some? then before.count + p.count.value else before.count)
      && (value in Values(points + [p]) <==> value in Values(points) || mine)
  {
    assert (points + [p])[..|points|] == points;
  }

  // ---------------------------------------------------------------- what is heavier

  lemma QuotientOrder(x: real, c: real, y: real, d: real)
    requires c > 0.0 && d > 0.0
    ensures x / c >= y / d <==> x * d >= y * c
  {
    assert x == x / c * c && y == y / d * d;
    assert x * d == x / c * (c * d) && y * c == y / d * (c * d);
    assert c * d > 0.0;
  }

  /** Sums are ranked by size, and levels by the mean reading, told by multiplying out; a value that nothing was read of
      weighs no more than any other. */
  lemma RankedBySizeOrMean(a: Ranked, b: Ranked)
    requires a.bucket.sum >= 0.0 && b.bucket.sum >= 0.0
    ensures HeaviestFirst(false)(a, b) <==> a.bucket.sum >= b.bucket.sum
    ensures a.bucket.count > 0 && b.bucket.count > 0 ==>
      (HeaviestFirst(true)(a, b) <==> a.bucket.sum * b.bucket.count as real >= b.bucket.sum * a.bucket.count as real)
    ensures b.bucket.count == 0 ==> HeaviestFirst(true)(a, b)
  {
    if a.bucket.count > 0 && b.bucket.count > 0 {
      QuotientOrder(a.bucket.sum, a.bucket.count as real, b.bucket.sum, b.bucket.count as real);
    }
    forall isLevel: bool
      ensures HeaviestFirst(isLevel)(a, b) <==> Weight(a.bucket, isLevel) >= Weight(b.bucket, isLevel)
    {
    }
  }

  /** The sign of a total does not matter. */
  lemma SignDoesNotMatter(b: Bucket, isLevel: bool)
    ensures Weight(Bucket(-b.sum, b.count), isLevel) == Weight(b, isLevel) >= 0.0
  {
    if b.count != 0 {
      assert -b.sum / b.count as real == -(b.sum / b.count as real);
    }
  }

  // ---------------------------------------------------------------- order does not matter

  lemma LastOfTheRest(points: seq<Point>, i: nat, value: Value)
    requires i < |points| - 1
    ensures var n := |points| - 1; var p := points[n];
      var before := Total(points[..n][..i] + points[..n][i + 1..], value);
      Total(points[..i] + points[i + 1..], value) ==
        if KeyOf(p) == value then Bucket(before.sum + SumOf(p), before.count + CountOf(p)) else before
  {
    var rest, n := points[..i] + points[i + 1..], |points| - 1;
    assert rest[..|rest| - 1] == points[..n][..i] + points[..n][i + 1..] && rest[|rest| - 1] == points[n];
  }

  lemma {:induction false} TotalWithout(points: seq<Point>, i: nat, value: Value)
    requires i < |points|
    ensures var rest := Total(points[..i] + points[i + 1..], value);
      Total(points, value) == if KeyOf(points[i]) == value
        then Bucket(rest.sum + SumOf(points[i]), rest.count + CountOf(points[i])) else rest
  {
    var n := |points| - 1;
    if i == n {
      assert points[..i] + points[i + 1..] == points[..n];
    } else {
      TotalWithout(points[..n], i, value);
      assert points[..n][i] == points[i];
      LastOfTheRest(points, i, value);
    }
  }

  lemma MultisetWithout<T>(s: seq<T>, i: nat)
    requires i < |s|
    ensures multiset(s[..i] + s[i + 1..]) == multiset(s) - multiset{s[i]}
  {
    assert s == s[..i] + [s[i]] + s[i + 1..];
  }

  lemma LastIsAmong<T>(a: seq<T>, b: seq<T>) returns (i: nat)
    requires multiset(a) == multiset(b) && a != []
    ensures i < |b| && b[i] == a[|a| - 1]
    ensures multiset(a[..|a| - 1]) == multiset(b[..i] + b[i + 1..])
  {
    var n := |a| - 1;
    assert a[n] in multiset(b);
    i :| 0 <= i < |b| && b[i] == a[n];
    MultisetWithout(a, n);
    MultisetWithout(b, i);
    assert a[..n] + a[n + 1..] == a[..n];
  }

  /** The same points in any order give every value the same total. */
  lemma {:induction false} TotalsIgnoreOrder(a: seq<Point>, b: seq<Point>, value: Value)
    requires multiset(a) == multiset(b)
    ensures Total(a, value) == Total(b, value)
  {
    if a == [] {
      assert |multiset(b)| == 0;
    } else {
      var n := |a| - 1;
      var i := LastIsAmong(a, b);
      TotalsIgnoreOrder(a[..n], b[..i] + b[i + 1..], value);
      TotalWithout(b, i, value);
    }
  }

  lemma ValuesIgnoreOrder(a: seq<Point>, b: seq<Point>, value: Value)
    requires multiset(a) == multiset(b)
    ensures value in Values(a) <==> value in Values(b)
  {
    ValuesAreDistinct(a);
    ValuesAreDistinct(b);
    forall p ensures p in a <==> p in b {
      assert p in multiset(a) <==> p in multiset(b);
    }
  }

  // ---------------------------------------------------------------- the ranking

  lemma HeaviestFirstIsTotal(isLevel: bool)
    ensures TotalPreorder(HeaviestFirst(isLevel))
  {
  }

  lemma EntriesAreExact(points: seq<Point>, e: Ranked)
    ensures e in Entries(points) <==> e.value in Values(points) && e.bucket == Total(points, e.value)
  {
    if e.value in Values(points) {
      var i :| 0 <= i < |Values(points)| && Values(points)[i] == e.value;
      assert Entries(points)[i] == Ranked(e.value, Total(points, e.value));
    }
  }

  ghost predicate DistinctValues(rows: seq<Ranked>) {
    forall i, j | 0 <= i < j < |rows| :: rows[i].value != rows[j].value
  }

  lemma SortedEntriesAreDistinct(points: seq<Point>, isLevel: bool)
    ensures DistinctValues(StableSort(HeaviestFirst(isLevel), Entries(points)))
  {
    var sorted := StableSort(HeaviestFirst(isLevel), Entries(points));
    HeaviestFirstIsTotal(isLevel);
    StableSortSorts(HeaviestFirst(isLevel), Entries(points));
    ValuesAreDistinct(points);
    NoDuplicatesStay(Entries(points), sorted);
    forall i, j | 0 <= i < j < |sorted| ensures sorted[i].value != sorted[j].value {
      EntriesAreExact(points, sorted[i]);
      EntriesAreExact(points, sorted[j]);
      assert sorted[i] in sorted && sorted[j] in sorted;
    }
  }

  lemma NoDuplicatesStay<T>(a: seq<T>, b: seq<T>)
    requires NoDuplicates(a) && multiset(a) == multiset(b)
    ensures NoDuplicates(b)
  {
    NoDuplicatesByCount(a);
    NoDuplicatesByCount(b);
    assert forall x :: Count(b, x) == Count(a, x);
  }

  lemma FirstAreDistinct(rows: seq<Ranked>, n: nat)
    requires DistinctValues(rows) && n <= |rows|
    ensures DistinctValues(rows[..n])
  {
  }

  /** Whatever a sorted list cuts off is no heavier than what it shows. */
  lemma CutOffIsLighter(sorted: seq<Ranked>, isLevel: bool, n: nat, r: Ranked, e: Ranked)
    requires SortedBy(HeaviestFirst(isLevel), sorted) && n <= |sorted|
    requires r in sorted[..n] && e in sorted && e !in sorted[..n]
    ensures Weight(r.bucket, isLevel) >= Weight(e.bucket, isLevel)
  {
    assert sorted == sorted[..n] + sorted[n..];
    var i :| 0 <= i < n && sorted[i] == r;
    var j :| n <= j < |sorted| && sorted[j] == e;
    assert HeaviestFirst(isLevel)(sorted[i], sorted[j]);
  }

  lemma SortedEntries(points: seq<Point>, isLevel: bool, e: Ranked)
    ensures var sorted := StableSort(HeaviestFirst(isLevel), Entries(points));
      && |sorted| == |Values(points)| && SortedBy(HeaviestFirst(isLevel), sorted)
      && (e in sorted <==> e.value in Values(points) && e.bucket == Total(points, e.value))
  {
    HeaviestFirstIsTotal(isLevel);
    StableSortSorts(HeaviestFirst(isLevel), Entries(points));
    EntriesAreExact(points, e);
  }

  /** The rows shown: as many as asked for if there are that many values, each value once, with its own
      total, heaviest first, and nothing left out outweighs anything shown. */
  lemma TopIsTheHeaviest(points: seq<Point>, isLevel: bool, top: nat)
    ensures var rows := TopOf(points, isLevel, top);
      && |rows| == (if top <= |Values(points)| then top else |Values(points)|)
      && DistinctValues(rows) && SortedBy(HeaviestFirst(isLevel), rows)
      && (forall r | r in rows :: r.value in Values(points) && r.bucket == Total(points, r.value))
      && (forall r, v | r in rows && v in Values(points) && (forall s | s in rows :: s.value != v) ::
            Weight(r.bucket, isLevel) >= Weight(Total(points, v), isLevel))
  {
    var sorted := StableSort(HeaviestFirst(isLevel), Entries(points));
    var rows := TopOf(points, isLevel, top);
    SortedEntries(points, isLevel, Ranked(None, Bucket(0.0, 0)));
    SortedEntriesAreDistinct(points, isLevel);
    assert rows == sorted[..|rows|];
    FirstAreDistinct(sorted, |rows|);
    forall r | r in rows ensures r in sorted && r.value in Values(points) && r.bucket == Total(points, r.value) {
      SortedEntries(points, isLevel, r);
    }
    forall r, v | r in rows && v in Values(points) && (forall s | s in rows :: s.value != v)
      ensures Weight(r.bucket, isLevel) >= Weight(Total(points, v), isLevel)
    {
      var e := Ranked(v, Total(points, v));
      SortedEntries(points, isLevel, e);
      assert e !in rows;
      CutOffIsLighter(sorted, isLevel, |rows|, r, e);
    }
  }

  /** Any ranking that is heaviest first and keeps ties in order of first appearance is the one taken from the top. */
  lemma AnyStableRankingIsTheRanking(points: seq<Point>, isLevel: bool, top: nat, ranked: seq<Ranked>)
    requires SortedBy(HeaviestFirst(isLevel), ranked)
    requires forall e ::
      Filter(SameKey(HeaviestFirst(isLevel), e), ranked) == Filter(SameKey(HeaviestFirst(isLevel), e), Entries(points))
    ensures TopOf(points, isLevel, top) == Take(ranked, top)
  {
    HeaviestFirstIsTotal(isLevel);
    OnlyStableSort(HeaviestFirst(isLevel), Entries(points), ranked);
  }

  ghost predicate NoTies(points: seq<Point>, isLevel: bool) {
    forall u, v | u in Values(points) && v in Values(points) && u != v ::
      Weight(Total(points, u), isLevel) != Weight(Total(points, v), isLevel)
  }

  /** Without ties the whole answer is independent of the order the points came in. */
  lemma RankingIgnoresOrder(a: seq<Point>, b: seq<Point>, isLevel: bool, top: nat)
    requires multiset(a) == multiset(b) && NoTies(a, isLevel)
    ensures TopOf(a, isLevel, top) == TopOf(b, isLevel, top)
  {
    var leq := HeaviestFirst(isLevel);
    var x, y := StableSort(leq, Entries(a)), StableSort(leq, Entries(b));
    HeaviestFirstIsTotal(isLevel);
    StableSortSorts(leq, Entries(a));
    StableSortSorts(leq, Entries(b));
    SortedEntriesAreDistinct(a, isLevel);
    SortedEntriesAreDistinct(b, isLevel);
    forall e ensures e in x <==> e in y {
      EntriesAreExact(a, e);
      EntriesAreExact(b, e);
      TotalsIgnoreOrder(a, b, e.value);
      ValuesIgnoreOrder(a, b, e.value);
    }
    forall e, e' | e in x && e' in x && e != e' ensures !(leq(e, e') && leq(e', e)) {
      EntriesAreExact(a, e);
      EntriesAreExact(a, e');
    }
    StrictlySortedIsUnique(leq, x, y);
  }

  lemma {:induction false} StrictlySortedIsUnique<T(!new)>(leq: (T, T) -> bool, x: seq<T>, y: seq<T>)
    requires SortedBy(leq, x) && SortedBy(leq, y) && NoDuplicates(x) && NoDuplicates(y)
    requires forall e :: e in x <==> e in y
    requires forall e, e' | e in x && e' in x && e != e' :: !(leq(e, e') && leq(e', e))
    ensures x == y
  {
    assert y != [] ==> y[0] in x;
    if x != [] {
      assert x[0] in y;
      assert y[0] in x;
      var i :| 0 <= i < |y| && y[i] == x[0];
      var j :| 0 <= j < |x| && x[j] == y[0];
      assert x[0] == y[0];
      forall e ensures e in x[1..] <==> e in y[1..] {
        assert e in x <==> e == x[0] || e in x[1..];
        assert e in y <==> e == y[0] || e in y[1..];
        assert x[0] !in x[1..] && y[0] !in y[1..];
      }
      StrictlySortedIsUnique(leq, x[1..], y[1..]);
      assert x == [x[0]] + x[1..] && y == [y[0]] + y[1..];
    }
  }
}
