/** Sequence operations the monitor gets from Python's standard library: list
    comprehensions with a condition, the stable `sorted`, and negative slices. */
module Sequences {

  datatype Option<+T> = None | Some(value: T)

  function Min(a: nat, b: nat): nat { if a <= b then a else b }

  function Last<T>(xs: seq<T>): T
    requires xs != []
  {
    xs[|xs| - 1]
  }

  function Front<T>(xs: seq<T>): seq<T>
    requires xs != []
  {
    xs[..|xs| - 1]
  }

  /** `[x for x in xs if p(x)]` */
  function Filter<T>(xs: seq<T>, p: T -> bool): seq<T> {
    if xs == [] then []
    else if p(Last(xs)) then Filter(Front(xs), p) + [Last(xs)]
    else Filter(Front(xs), p)
  }

  /** `xs[-n:]`; Python reads `-0` as 0, so n == 0 selects everything. */
  function Tail<T>(xs: seq<T>, n: nat): seq<T> {
    if n == 0 || |xs| <= n then xs else xs[|xs| - n..]
  }

  ghost predicate IsSuffix<T>(s: seq<T>, xs: seq<T>) {
    |s| <= |xs| && s == xs[|xs| - |s|..]
  }

  lemma {:induction false} FilterMembers<T(!new)>(xs: seq<T>, p: T -> bool)
    ensures forall x :: x in Filter(xs, p) <==> x in xs && p(x)
  {
    if xs != [] {
      FilterMembers(Front(xs), p);
      assert xs == Front(xs) + [Last(xs)];
    }
  }

  lemma {:induction false} FilterNone<T>(xs: seq<T>, p: T -> bool)
    requires forall x <- xs :: !p(x)
    ensures Filter(xs, p) == []
  {
    if xs != [] {
      assert Last(xs) in xs && forall x <- Front(xs) :: x in xs;
      FilterNone(Front(xs), p);
    }
  }

  lemma {:induction false} FilterConcat<T>(xs: seq<T>, ys: seq<T>, p: T -> bool)
    ensures Filter(xs + ys, p) == Filter(xs, p) + Filter(ys, p)
  {
    if ys == [] {
      assert xs + ys == xs;
    } else {
      FilterConcat(xs, Front(ys), p);
      assert Front(xs + ys) == xs + Front(ys) && Last(xs + ys) == Last(ys);
    }
  }

  lemma {:induction false} FilterSorted<T(!new)>(xs: seq<T>, p: T -> bool, le: (T, T) -> bool)
    requires Sorted(xs, le)
    ensures Sorted(Filter(xs, p), le)
  {
    if xs != [] {
      FilterSorted(Front(xs), p, le);
      FilterMembers(Front(xs), p);
      var f := Filter(Front(xs), p);
      forall i | 0 <= i < |f| ensures le(f[i], Last(xs)) {
        assert f[i] in Front(xs);
      }
    }
  }

  /** Filtering twice is filtering once when the second condition implies the first. */
  lemma {:induction false} FilterTwice<T(!new)>(xs: seq<T>, p: T -> bool, q: T -> bool)
    requires forall x :: x in xs && q(x) ==> p(x)
    ensures Filter(Filter(xs, p), q) == Filter(xs, q)
  {
    if xs != [] {
      FilterTwice(Front(xs), p, q);
      if p(Last(xs)) {
        FilterPush(Filter(Front(xs), p), Last(xs), q);
      }
    }
  }

  // ---- stable sorting ------------------------------------------------------------

  ghost predicate IsOrder<T(!new)>(le: (T, T) -> bool) {
    && (forall a, b :: le(a, b) || le(b, a))
    && (forall a, b, c :: le(a, b) && le(b, c) ==> le(a, c))
  }

  ghost predicate Sorted<T>(xs: seq<T>, le: (T, T) -> bool) {
    forall i, j :: 0 <= i < j < |xs| ==> le(xs[i], xs[j])
  }

  /** Place x behind every element it does not precede strictly. */
  function Insert<T>(xs: seq<T>, x: T, le: (T, T) -> bool): seq<T> {
    if xs == [] || le(Last(xs), x) then xs + [x] else Insert(Front(xs), x, le) + [Last(xs)]
  }

  /** Python's `sorted`: elements that tie keep their order. */
  function StableSort<T>(xs: seq<T>, le: (T, T) -> bool): seq<T> {
    if xs == [] then [] else Insert(StableSort(Front(xs), le), Last(xs), le)
  }

  lemma {:induction false} InsertPermutes<T(!new)>(xs: seq<T>, x: T, le: (T, T) -> bool)
    ensures multiset(Insert(xs, x, le)) == multiset(xs) + multiset{x}
  {
    if xs == [] || le(Last(xs), x) {
    } else {
      InsertPermutes(Front(xs), x, le);
      assert xs == Front(xs) + [Last(xs)];
    }
  }

  lemma {:induction false} SortPermutes<T(!new)>(xs: seq<T>, le: (T, T) -> bool)
    ensures multiset(StableSort(xs, le)) == multiset(xs)
  {
    if xs != [] {
      SortPermutes(Front(xs), le);
      InsertPermutes(StableSort(Front(xs), le), Last(xs), le);
      assert xs == Front(xs) + [Last(xs)];
    }
  }

  lemma SortMembers<T(!new)>(xs: seq<T>, le: (T, T) -> bool)
    ensures forall x :: x in StableSort(xs, le) <==> x in xs
  {
    SortPermutes(xs, le);
    var sorted := StableSort(xs, le);
    forall x ensures x in sorted <==> x in xs {
      assert x in sorted <==> x in multiset(sorted);
      assert x in xs <==> x in multiset(xs);
    }
  }

  lemma {:induction false} InsertSorts<T(!new)>(xs: seq<T>, x: T, le: (T, T) -> bool)
    requires IsOrder(le) && Sorted(xs, le)
    ensures Sorted(Insert(xs, x, le), le)
  {
    if xs == [] || le(Last(xs), x) {
    } else {
      InsertSorts(Front(xs), x, le);
      InsertPermutes(Front(xs), x, le);
      var r := Insert(Front(xs), x, le);
      forall i | 0 <= i < |r| ensures le(r[i], Last(xs)) {
        assert r[i] in multiset(r);
        assert r[i] == x || r[i] in Front(xs);
      }
    }
  }

  lemma {:induction false} SortSorts<T(!new)>(xs: seq<T>, le: (T, T) -> bool)
    requires IsOrder(le)
    ensures Sorted(StableSort(xs, le), le)
  {
    if xs != [] {
      SortSorts(Front(xs), le);
      InsertSorts(StableSort(Front(xs), le), Last(xs), le);
    }
  }

  /** A sort also sorts by any coarser order that its own never contradicts. */
  lemma {:induction false} SortsCoarsely<T(!new)>(xs: seq<T>, le: (T, T) -> bool, coarse: (T, T) -> bool)
    requires IsOrder(coarse) && forall a, b :: (le(a, b) ==> coarse(a, b)) && (!le(a, b) ==> coarse(b, a))
    ensures Sorted(StableSort(xs, le), coarse)
  {
    if xs != [] {
      SortsCoarsely(Front(xs), le, coarse);
      InsertsCoarsely(StableSort(Front(xs), le), Last(xs), le, coarse);
    }
  }

  lemma {:induction false} InsertsCoarsely<T(!new)>(xs: seq<T>, x: T, le: (T, T) -> bool, coarse: (T, T) -> bool)
    requires IsOrder(coarse) && Sorted(xs, coarse)
    requires forall a, b :: (le(a, b) ==> coarse(a, b)) && (!le(a, b) ==> coarse(b, a))
    ensures Sorted(Insert(xs, x, le), coarse)
  {
    if xs == [] || le(Last(xs), x) {
      forall i | 0 <= i < |xs| ensures coarse(xs[i], x) {
        assert coarse(Last(xs), x) && (i < |xs| - 1 ==> coarse(xs[i], Last(xs)));
      }
    } else {
      InsertsCoarsely(Front(xs), x, le, coarse);
      InsertPermutes(Front(xs), x, le);
      var r := Insert(Front(xs), x, le);
      forall i | 0 <= i < |r| ensures coarse(r[i], Last(xs)) {
        assert r[i] in multiset(r);
        assert r[i] == x || r[i] in Front(xs);
      }
    }
  }

  lemma FilterPush<T>(xs: seq<T>, x: T, p: T -> bool)
    ensures Filter(xs + [x], p) == if p(x) then Filter(xs, p) + [x] else Filter(xs, p)
  {
    assert Front(xs + [x]) == xs;
  }

  lemma FilterOneMore<T>(xs: seq<T>, i: nat, p: T -> bool)
    requires i < |xs|
    ensures Filter(xs[..i + 1], p) == if p(xs[i]) then Filter(xs[..i], p) + [xs[i]] else Filter(xs[..i], p)
  {
    assert xs[..i + 1] == xs[..i] + [xs[i]];
    FilterPush(xs[..i], xs[i], p);
  }

  lemma {:induction false} FilterInsert<T(!new)>(xs: seq<T>, x: T, le: (T, T) -> bool, p: T -> bool)
    requires IsOrder(le) && Sorted(xs, le)
    ensures Filter(Insert(xs, x, le), p) == if p(x) then Insert(Filter(xs, p), x, le) else Filter(xs, p)
  {
    if xs == [] || le(Last(xs), x) {
      FilterPush(xs, x, p);
      FilterMembers(xs, p);
      if Filter(xs, p) != [] {
        assert Last(Filter(xs, p)) in xs;
      }
    } else {
      FilterInsert(Front(xs), x, le, p);
      FilterPush(Insert(Front(xs), x, le), Last(xs), p);
      if p(x) && p(Last(xs)) {
        InsertBefore(Filter(Front(xs), p), x, Last(xs), le);
      }
    }
  }

  lemma InsertBefore<T>(xs: seq<T>, x: T, y: T, le: (T, T) -> bool)
    requires !le(y, x)
    ensures Insert(xs + [y], x, le) == Insert(xs, x, le) + [y]
  {
    assert Front(xs + [y]) == xs;
  }

  lemma SortPush<T>(xs: seq<T>, x: T, le: (T, T) -> bool)
    ensures StableSort(xs + [x], le) == Insert(StableSort(xs, le), x, le)
  {
    assert Front(xs + [x]) == xs;
  }

  /** Sorting and filtering commute: what a filter keeps is ordered as if it had been sorted alone. */
  lemma {:induction false} FilterSort<T(!new)>(xs: seq<T>, le: (T, T) -> bool, p: T -> bool)
    requires IsOrder(le)
    ensures Filter(StableSort(xs, le), p) == StableSort(Filter(xs, p), le)
  {
    if xs != [] {
      FilterSort(Front(xs), le, p);
      SortSorts(Front(xs), le);
      FilterInsert(StableSort(Front(xs), le), Last(xs), le, p);
      SortPush(Filter(Front(xs), p), Last(xs), le);
    }
  }

  ghost predicate Distinct<T, K>(xs: seq<T>, key: T -> K) {
    forall i, j :: 0 <= i < j < |xs| ==> key(xs[i]) != key(xs[j])
  }

  lemma {:induction false} FilterDistinct<T(!new), K>(xs: seq<T>, p: T -> bool, key: T -> K)
    requires Distinct(xs, key)
    ensures Distinct(Filter(xs, p), key)
  {
    if xs != [] {
      FilterDistinct(Front(xs), p, key);
      FilterMembers(Front(xs), p);
      var f := Filter(Front(xs), p);
      forall i | 0 <= i < |f| ensures key(f[i]) != key(Last(xs)) {
        assert f[i] in Front(xs);
      }
    }
  }

  lemma {:induction false} InsertDistinct<T(!new), K>(xs: seq<T>, x: T, le: (T, T) -> bool, key: T -> K)
    requires Distinct(xs, key) && forall y <- xs :: key(y) != key(x)
    ensures Distinct(Insert(xs, x, le), key)
  {
    if xs == [] || le(Last(xs), x) {
    } else {
      InsertDistinct(Front(xs), x, le, key);
      InsertPermutes(Front(xs), x, le);
      var r := Insert(Front(xs), x, le);
      forall i | 0 <= i < |r| ensures key(r[i]) != key(Last(xs)) {
        assert r[i] in multiset(r);
        assert r[i] == x || r[i] in Front(xs);
      }
    }
  }

  lemma {:induction false} SortDistinct<T(!new), K>(xs: seq<T>, le: (T, T) -> bool, key: T -> K)
    requires Distinct(xs, key)
    ensures Distinct(StableSort(xs, le), key)
  {
    if xs != [] {
      SortDistinct(Front(xs), le, key);
      SortMembers(Front(xs), le);
      forall y <- StableSort(Front(xs), le) ensures key(y) != key(Last(xs)) {
        assert y in Front(xs);
      }
      InsertDistinct(StableSort(Front(xs), le), Last(xs), le, key);
    }
  }

  lemma {:induction false} TailOfTail<T>(xs: seq<T>, ys: seq<T>, n: nat)
    requires n > 0
    ensures Tail(Tail(xs, n) + ys, n) == Tail(xs + ys, n)
  {
    var whole, short := xs + ys, Tail(xs, n) + ys;
    if |xs| > n {
      assert short == whole[|xs| - n..];
    }
  }

  lemma LastOfConcat<T>(a: seq<T>, b: seq<T>)
    ensures if b == [] then a + b == a else a + b == a + Front(b) + [Last(b)] && b == Front(b) + [Last(b)]
  {
  }

  lemma InFrontOrLast<T>(xs: seq<T>, x: T)
    requires xs != []
    ensures x in xs <==> x in Front(xs) || x == Last(xs)
  {
    assert xs == Front(xs) + [Last(xs)];
  }

  lemma Regroup<T>(a: seq<T>, b: seq<T>, c: seq<T>)
    ensures a + (b + c) == a + b + c
  {
  }

  lemma SplitAt<T>(xs: seq<T>, p: nat)
    requires p < |xs|
    ensures xs == xs[..p + 1] + xs[p + 1..] && xs[..p + 1] == xs[..p] + [xs[p]]
  {
  }

  lemma SliceFront<T>(xs: seq<T>, i: nat, j: nat)
    requires i < j <= |xs|
    ensures Front(xs[i..j]) == xs[i..j - 1] && Last(xs[i..j]) == xs[j - 1]
  {
  }

  lemma {:induction false} FilterSame<T>(xs: seq<T>, p: T -> bool, q: T -> bool)
    requires forall x <- xs :: p(x) == q(x)
    ensures Filter(xs, p) == Filter(xs, q)
  {
    if xs != [] {
      assert Last(xs) in xs && forall x <- Front(xs) :: x in xs;
      FilterSame(Front(xs), p, q);
    }
  }
}
