// Stable sorting and filtering of sequences: what Python's `sorted`, `list.sort` and list
// comprehensions promise, stated once for the modules that use them.

module Sorting {

  ghost predicate TotalPreorder<T(!new)>(leq: (T, T) -> bool) {
    && (forall x, y :: leq(x, y) || leq(y, x))
    && (forall x, y, z :: leq(x, y) && leq(y, z) ==> leq(x, z))
  }

  ghost predicate SortedBy<T>(leq: (T, T) -> bool, s: seq<T>) {
    forall i, j | 0 <= i < j < |s| :: leq(s[i], s[j])
  }

  function Filter<T>(p: T -> bool, s: seq<T>): seq<T> {
    if s == [] then []
    else if p(s[0]) then [s[0]] + Filter(p, s[1..])
    else Filter(p, s[1..])
  }

  /** `x` goes in front of the first element it does not exceed. */
  function Insert<T>(leq: (T, T) -> bool, x: T, s: seq<T>): seq<T> {
    if s == [] then [x]
    else if leq(x, s[0]) then [x] + s
    else [s[0]] + Insert(leq, x, s[1..])
  }

  function StableSort<T>(leq: (T, T) -> bool, s: seq<T>): seq<T> {
    if s == [] then [] else Insert(leq, s[0], StableSort(leq, s[1..]))
  }

  /** Elements with the same sort key as `e`. */
  function SameKey<T>(leq: (T, T) -> bool, e: T): T -> bool {
    x => leq(x, e) && leq(e, x)
  }

  /** How often `x` occurs in `s`. */
  function Count<T(==)>(s: seq<T>, x: T): nat {
    multiset(s)[x]
  }

  /** Each element once. */
  function Distinct<T(==)>(s: seq<T>): seq<T> {
    if s == [] then []
    else if s[0] in s[1..] then Distinct(s[1..])
    else [s[0]] + Distinct(s[1..])
  }

  ghost predicate NoDuplicates<T>(s: seq<T>) {
    forall i, j | 0 <= i < j < |s| :: s[i] != s[j]
  }

  lemma {:induction false} DistinctKeepsMembers<T>(s: seq<T>)
    ensures NoDuplicates(Distinct(s))
    ensures forall x :: x in Distinct(s) <==> x in s
  {
    if s != [] {
      DistinctKeepsMembers(s[1..]);
      assert s == [s[0]] + s[1..];
    }
  }

  lemma NoDuplicatesByCount<T>(s: seq<T>)
    ensures NoDuplicates(s) <==> forall x :: Count(s, x) <= 1
  {
    if NoDuplicates(s) {
      forall x ensures Count(s, x) <= 1 {
        CountInDistinct(s, x);
      }
    } else {
      var i, j :| 0 <= i < j < |s| && s[i] == s[j];
      assert s == s[..i] + ([s[i]] + (s[i + 1..j] + ([s[j]] + s[j + 1..])));
      assert Count(s, s[i]) >= 2;
    }
  }

  lemma {:induction false} CountInDistinct<T>(s: seq<T>, x: T)
    requires NoDuplicates(s)
    ensures Count(s, x) <= 1
  {
    if s != [] {
      assert s == [s[0]] + s[1..];
      assert NoDuplicates(s[1..]);
      CountInDistinct(s[1..], x);
      if s[0] == x {
        assert x !in s[1..];
      }
    }
  }

  // ---------------------------------------------------------------- filtering

  lemma {:induction false} FilterAppend<T>(p: T -> bool, a: seq<T>, b: seq<T>)
    ensures Filter(p, a + b) == Filter(p, a) + Filter(p, b)
  {
    if a == [] {
      assert a + b == b;
    } else {
      FilterAppend(p, a[1..], b);
      assert (a + b)[1..] == a[1..] + b;
    }
  }

  lemma {:induction false} FilterMembers<T>(p: T -> bool, s: seq<T>)
    ensures forall x :: x in Filter(p, s) <==> x in s && p(x)
    ensures multiset(Filter(p, s)) <= multiset(s)
    ensures |Filter(p, s)| <= |s|
  {
    if s != [] {
      FilterMembers(p, s[1..]);
      assert s == [s[0]] + s[1..];
    }
  }

  lemma {:induction false} FilterCounts<T>(p: T -> bool, s: seq<T>, x: T)
    ensures Count(Filter(p, s), x) == if p(x) then Count(s, x) else 0
  {
    if s != [] {
      FilterCounts(p, s[1..], x);
      assert s == [s[0]] + s[1..];
    }
  }

  // ---------------------------------------------------------------- the sort

  lemma {:induction false} InsertPlaces<T(!new)>(leq: (T, T) -> bool, x: T, s: seq<T>)
    requires TotalPreorder(leq) && SortedBy(leq, s)
    ensures SortedBy(leq, Insert(leq, x, s))
    ensures multiset(Insert(leq, x, s)) == multiset([x]) + multiset(s)
    ensures |Insert(leq, x, s)| == |s| + 1
  {
    if s == [] {
    } else if leq(x, s[0]) {
      assert ([x] + s)[1..] == s;
    } else {
      InsertPlaces(leq, x, s[1..]);
      var r := Insert(leq, x, s[1..]);
      assert s == [s[0]] + s[1..];
      forall j | 0 <= j < |r| ensures leq(s[0], r[j]) {
        assert r[j] in multiset(r);
        assert r[j] == x || r[j] in s[1..];
      }
    }
  }

  lemma SameElements<T>(a: seq<T>, b: seq<T>)
    requires multiset(a) == multiset(b)
    ensures forall x :: Count(a, x) == Count(b, x)
    ensures forall x :: x in a <==> x in b
    ensures |a| == |b|
  {
    forall x ensures x in a <==> x in b {
      assert x in multiset(a) <==> x in multiset(b);
    }
    assert |multiset(a)| == |a| && |multiset(b)| == |b|;
  }

  lemma {:induction false} StableSortSorts<T(!new)>(leq: (T, T) -> bool, s: seq<T>)
    requires TotalPreorder(leq)
    ensures SortedBy(leq, StableSort(leq, s))
    ensures multiset(StableSort(leq, s)) == multiset(s)
    ensures forall x :: Count(StableSort(leq, s), x) == Count(s, x)
    ensures forall x :: x in StableSort(leq, s) <==> x in s
    ensures |StableSort(leq, s)| == |s|
  {
    if s != [] {
      StableSortSorts(leq, s[1..]);
      InsertPlaces(leq, s[0], StableSort(leq, s[1..]));
      assert s == [s[0]] + s[1..];
    }
    SameElements(StableSort(leq, s), s);
  }

  /** `sorted(set(s))`. */
  lemma SortedDistinct<T(!new)>(leq: (T, T) -> bool, s: seq<T>)
    requires TotalPreorder(leq)
    ensures SortedBy(leq, StableSort(leq, Distinct(s))) && NoDuplicates(StableSort(leq, Distinct(s)))
    ensures forall x :: x in StableSort(leq, Distinct(s)) <==> x in s
  {
    DistinctKeepsMembers(s);
    StableSortSorts(leq, Distinct(s));
    NoDuplicatesByCount(Distinct(s));
    NoDuplicatesByCount(StableSort(leq, Distinct(s)));
  }

  lemma {:induction false} FilterInsert<T(!new)>(leq: (T, T) -> bool, p: T -> bool, x: T, s: seq<T>)
    requires TotalPreorder(leq) && SortedBy(leq, s)
    ensures Filter(p, Insert(leq, x, s))
         == if p(x) then Insert(leq, x, Filter(p, s)) else Filter(p, s)
  {
    if s == [] {
    } else if leq(x, s[0]) {
      assert ([x] + s)[1..] == s;
      FilterMembers(p, s);
      if p(x) && Filter(p, s) != [] {
        assert Filter(p, s)[0] in s;
        assert leq(s[0], s[0]);
        assert leq(x, Filter(p, s)[0]);
      }
    } else {
      FilterInsert(leq, p, x, s[1..]);
      assert ([s[0]] + Insert(leq, x, s[1..]))[1..] == Insert(leq, x, s[1..]);
      if p(s[0]) {
        assert ([s[0]] + Filter(p, s[1..]))[1..] == Filter(p, s[1..]);
      } else {
        assert Filter(p, Insert(leq, x, s)) == Filter(p, Insert(leq, x, s[1..]));
      }
    }
  }

  /** Sorting and then selecting is selecting and then sorting, for any selection. */
  lemma {:induction false} FilterCommutesWithSort<T(!new)>(leq: (T, T) -> bool, p: T -> bool, s: seq<T>)
    requires TotalPreorder(leq)
    ensures Filter(p, StableSort(leq, s)) == StableSort(leq, Filter(p, s))
  {
    if s != [] {
      var x, tail := s[0], s[1..];
      StableSortSorts(leq, tail);
      FilterInsert(leq, p, x, StableSort(leq, tail));
      FilterCommutesWithSort(leq, p, tail);
      if p(x) {
        assert ([x] + Filter(p, tail))[1..] == Filter(p, tail);
      }
    }
  }

  lemma {:induction false} SortOfEqualKeys<T(!new)>(leq: (T, T) -> bool, s: seq<T>)
    requires forall x, y | x in s && y in s :: leq(x, y)
    ensures StableSort(leq, s) == s
  {
    if s != [] {
      SortOfEqualKeys(leq, s[1..]);
      assert s == [s[0]] + s[1..];
      if |s| > 1 {
        assert s[0] in s && s[1] in s;
      }
    }
  }

  /** Elements with equal keys keep their order. */
  lemma StableSortIsStable<T(!new)>(leq: (T, T) -> bool, s: seq<T>, e: T)
    requires TotalPreorder(leq)
    ensures Filter(SameKey(leq, e), StableSort(leq, s)) == Filter(SameKey(leq, e), s)
  {
    var p := SameKey(leq, e);
    FilterCommutesWithSort(leq, p, s);
    FilterMembers(p, s);
    SortOfEqualKeys(leq, Filter(p, s));
  }

  lemma SameMember<T(!new)>(leq: (T, T) -> bool, a: seq<T>, b: seq<T>, e: T)
    requires TotalPreorder(leq)
    requires Filter(SameKey(leq, e), a) == Filter(SameKey(leq, e), b)
    ensures e in a <==> e in b
  {
    FilterMembers(SameKey(leq, e), a);
    FilterMembers(SameKey(leq, e), b);
    assert SameKey(leq, e)(e);
    assert e in a <==> e in Filter(SameKey(leq, e), a);
    assert e in b <==> e in Filter(SameKey(leq, e), b);
  }

  lemma SameHead<T(!new)>(leq: (T, T) -> bool, a: seq<T>, b: seq<T>)
    requires TotalPreorder(leq) && SortedBy(leq, a) && SortedBy(leq, b)
    requires a != [] && b != []
    requires forall e :: Filter(SameKey(leq, e), a) == Filter(SameKey(leq, e), b)
    ensures a[0] == b[0]
  {
    SameMember(leq, a, b, a[0]);
    SameMember(leq, a, b, b[0]);
    assert leq(a[0], b[0]) && leq(b[0], a[0]);
    var p := SameKey(leq, a[0]);
    assert p(a[0]) && p(b[0]);
    assert Filter(p, a)[0] == a[0] && Filter(p, b)[0] == b[0];
  }

  /** Sorted and stable leaves only one result: two such sequences agree element by element. */
  lemma {:induction false} SortedAndStableIsUnique<T(!new)>(leq: (T, T) -> bool, a: seq<T>, b: seq<T>)
    requires TotalPreorder(leq) && SortedBy(leq, a) && SortedBy(leq, b)
    requires forall e :: Filter(SameKey(leq, e), a) == Filter(SameKey(leq, e), b)
    ensures a == b
  {
    if a != [] {
      SameMember(leq, a, b, a[0]);
    }
    if b != [] {
      SameMember(leq, a, b, b[0]);
    }
    if a != [] && b != [] {
      SameHead(leq, a, b);
      forall x ensures Filter(SameKey(leq, x), a[1..]) == Filter(SameKey(leq, x), b[1..]) {
        SameTail(SameKey(leq, x), a, b);
      }
      SortedAndStableIsUnique(leq, a[1..], b[1..]);
      assert a == [a[0]] + a[1..] && b == [b[0]] + b[1..];
    }
  }

  /** The sort is the only one there can be: whatever is sorted and keeps equal keys in their order is it. */
  lemma OnlyStableSort<T(!new)>(leq: (T, T) -> bool, s: seq<T>, sorted: seq<T>)
    requires TotalPreorder(leq)
    ensures sorted == StableSort(leq, s)
       <==> SortedBy(leq, sorted) && forall e :: Filter(SameKey(leq, e), sorted) == Filter(SameKey(leq, e), s)
  {
    StableSortSorts(leq, s);
    forall e ensures Filter(SameKey(leq, e), StableSort(leq, s)) == Filter(SameKey(leq, e), s) {
      StableSortIsStable(leq, s, e);
    }
    if SortedBy(leq, sorted) && forall e :: Filter(SameKey(leq, e), sorted) == Filter(SameKey(leq, e), s) {
      SortedAndStableIsUnique(leq, sorted, StableSort(leq, s));
    }
  }

  lemma SameTail<T>(p: T -> bool, a: seq<T>, b: seq<T>)
    requires a != [] && b != [] && a[0] == b[0] && Filter(p, a) == Filter(p, b)
    ensures Filter(p, a[1..]) == Filter(p, b[1..])
  {
    if p(a[0]) {
      assert Filter(p, a)[1..] == Filter(p, a[1..]);
      assert Filter(p, b)[1..] == Filter(p, b[1..]);
    }
  }

  // ---------------------------------------------------------------- projections

  function Map<X, Y>(f: X -> Y, s: seq<X>): (r: seq<Y>)
    ensures |r| == |s|
    ensures forall i | 0 <= i < |s| :: r[i] == f(s[i])
  {
    if s == [] then [] else [f(s[0])] + Map(f, s[1..])
  }

  lemma {:induction false} MapAppend<X, Y>(f: X -> Y, a: seq<X>, b: seq<X>)
    ensures Map(f, a + b) == Map(f, a) + Map(f, b)
  {
  }

  function Through<X, Y>(leq: (Y, Y) -> bool, f: X -> Y): (X, X) -> bool {
    (a: X, b: X) => leq(f(a), f(b))
  }

  lemma {:induction false} InsertCommutesWithMap<X, Y>(leq: (Y, Y) -> bool, f: X -> Y, x: X, s: seq<X>)
    ensures Map(f, Insert(Through(leq, f), x, s)) == Insert(leq, f(x), Map(f, s))
  {
    if s != [] && !leq(f(x), f(s[0])) {
      InsertCommutesWithMap(leq, f, x, s[1..]);
      assert Map(f, s)[1..] == Map(f, s[1..]);
    }
  }

  /** Sorting by a projection and then projecting is projecting and then sorting. */
  lemma {:induction false} SortCommutesWithMap<X, Y>(leq: (Y, Y) -> bool, f: X -> Y, s: seq<X>)
    ensures Map(f, StableSort(Through(leq, f), s)) == StableSort(leq, Map(f, s))
  {
    if s != [] {
      SortCommutesWithMap(leq, f, s[1..]);
      InsertCommutesWithMap(leq, f, s[0], StableSort(Through(leq, f), s[1..]));
    }
  }

  // ---------------------------------------------------------------- one element after the other

  function Fold<X, S>(f: (S, X) -> S, start: S, xs: seq<X>): S {
    if xs == [] then start
    else
      var last := |xs| - 1;
      f(Fold(f, start, xs[..last]), xs[last])
  }

  lemma FoldStep<X, S>(f: (S, X) -> S, start: S, xs: seq<X>, i: nat)
    requires i < |xs|
    ensures Fold(f, start, xs[..i + 1]) == f(Fold(f, start, xs[..i]), xs[i])
  {
    assert xs[..i + 1][..i] == xs[..i];
  }

  lemma {:induction false} FoldAppend<X, S>(f: (S, X) -> S, start: S, a: seq<X>, b: seq<X>)
    ensures Fold(f, start, a + b) == Fold(f, Fold(f, start, a), b)
  {
    if b == [] {
      assert a + b == a;
    } else {
      var last := |b| - 1;
      FoldAppend(f, start, a, b[..last]);
      assert (a + b)[..|a + b| - 1] == a + b[..last];
    }
  }

  // ---------------------------------------------------------------- maps built from a list

  /** One entry per element; the earliest element with a key gives its value. */
  function MapOf<X, K, V>(xs: seq<X>, key: X -> K, val: X -> V): map<K, V> {
    if xs == [] then map[]
    else
      var last := xs[|xs| - 1];
      map[key(last) := val(last)] + MapOf(xs[..|xs| - 1], key, val)
  }

  lemma {:induction false} MapOfIsExact<X, K, V>(xs: seq<X>, key: X -> K, val: X -> V)
    ensures forall k | k in MapOf(xs, key, val) ::
      exists x | x in xs :: key(x) == k && val(x) == MapOf(xs, key, val)[k]
    ensures forall x | x in xs :: key(x) in MapOf(xs, key, val)
  {
    if xs != [] {
      var front, last := xs[..|xs| - 1], xs[|xs| - 1];
      MapOfIsExact(front, key, val);
      assert xs == front + [last];
      forall k | k in MapOf(xs, key, val)
        ensures exists x | x in xs :: key(x) == k && val(x) == MapOf(xs, key, val)[k]
      {
        if k in MapOf(front, key, val) {
          var x :| x in front && key(x) == k && val(x) == MapOf(front, key, val)[k];
          assert x in xs;
        } else {
          assert last in xs && key(last) == k;
        }
      }
    }
  }
}
