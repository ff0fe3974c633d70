/** Sorting and removing adjacent duplicates, as the standard libraries do it. */
module Sorting {
  import opened Sequences

  ghost predicate IsOrder<T(!new)>(before: (T, T) -> bool) {
    && (forall a :: !before(a, a))
    && (forall a, b :: a == b || before(a, b) || before(b, a))
    && (forall a, b, c :: before(a, b) && before(b, c) ==> before(a, c))
  }

  /** Elements of which neither comes first stand in one place together. */
  ghost predicate IsWeakOrder<T(!new)>(before: (T, T) -> bool) {
    && (forall a, b :: before(a, b) ==> !before(b, a))
    && (forall a, b, c :: before(a, c) ==> before(a, b) || before(b, c))
  }

  lemma OrderIsWeak<T(!new)>(before: (T, T) -> bool)
    requires IsOrder(before)
    ensures IsWeakOrder(before)
  {
    forall a, b | before(a, b)
      ensures !before(b, a)
    {
      assert before(b, a) ==> before(a, a);
    }
    forall a, b, c | before(a, c) && !before(a, b)
      ensures before(b, c)
    {
      assert a == b || before(b, a);
    }
  }

  /** No later element belongs before an earlier one. */
  ghost predicate Sorted<T(!new)>(s: seq<T>, before: (T, T) -> bool) {
    forall i, j | 0 <= i < j < |s| :: !before(s[j], s[i])
  }

  /** Sorted and without duplicates. */
  ghost predicate StrictlySorted<T(!new)>(s: seq<T>, before: (T, T) -> bool) {
    forall i, j | 0 <= i < j < |s| :: before(s[i], s[j])
  }

  function InsertSorted<T>(x: T, s: seq<T>, before: (T, T) -> bool): seq<T> {
    if s == [] then [x]
    else if before(s[0], x) then [s[0]] + InsertSorted(x, s[1..], before)
    else [x] + s
  }

  function Sort<T>(s: seq<T>, before: (T, T) -> bool): seq<T> {
    if s == [] then [] else InsertSorted(s[0], Sort(s[1..], before), before)
  }

  function Dedup<T(==)>(s: seq<T>): seq<T> {
    if |s| < 2 then s
    else if s[0] == s[1] then Dedup(s[1..])
    else [s[0]] + Dedup(s[1..])
  }

  lemma {:induction false} InsertKeepsOrder<T(!new)>(x: T, s: seq<T>, before: (T, T) -> bool)
    requires IsWeakOrder(before) && Sorted(s, before)
    ensures Sorted(InsertSorted(x, s, before), before)
    ensures multiset(InsertSorted(x, s, before)) == multiset(s) + multiset{x}
  {
    if s != [] {
      assert s == [s[0]] + s[1..];
      if before(s[0], x) {
        InsertKeepsOrder(x, s[1..], before);
        var rest := InsertSorted(x, s[1..], before);
        forall i | 0 <= i < |rest|
          ensures !before(rest[i], s[0])
        {
          assert rest[i] in multiset(rest);
          assert rest[i] == x || rest[i] in s[1..];
        }
      }
    }
  }

  lemma {:induction false} SortSorts<T(!new)>(s: seq<T>, before: (T, T) -> bool)
    requires IsWeakOrder(before)
    ensures Sorted(Sort(s, before), before) && multiset(Sort(s, before)) == multiset(s)
  {
    if s != [] {
      SortSorts(s[1..], before);
      InsertKeepsOrder(s[0], Sort(s[1..], before), before);
      assert s == [s[0]] + s[1..];
    }
  }

  lemma {:induction false} DedupOfSorted<T(!new)>(s: seq<T>, before: (T, T) -> bool)
    requires IsOrder(before) && Sorted(s, before)
    ensures StrictlySorted(Dedup(s), before)
    ensures forall x :: x in Dedup(s) <==> x in s
    ensures s != [] ==> Dedup(s) != [] && Dedup(s)[0] == s[0]
  {
    if |s| >= 2 {
      var rest := s[1..];
      DedupOfSorted(rest, before);
      assert forall x :: x in s <==> x == s[0] || x in rest;
      if s[0] != s[1] {
        var d := Dedup(rest);
        forall i | 0 <= i < |d|
          ensures before(s[0], d[i])
        {
          assert before(s[0], s[1]);
        }
      }
    }
  }

  /** Sorting, then removing adjacent duplicates, removes every duplicate and nothing else. */
  lemma SortedSet<T(!new)>(s: seq<T>, before: (T, T) -> bool)
    requires IsOrder(before)
    ensures StrictlySorted(Dedup(Sort(s, before)), before)
    ensures forall x :: x in Dedup(Sort(s, before)) <==> x in s
  {
    OrderIsWeak(before);
    SortSorts(s, before);
    DedupOfSorted(Sort(s, before), before);
    assert forall x :: x in s <==> x in multiset(s);
  }

  lemma SameFirst<T(!new)>(s: seq<T>, t: seq<T>, before: (T, T) -> bool)
    requires Sorted(s, before) && StrictlySorted(t, before) && s != [] && t != []
    requires s[0] in multiset(t) && t[0] in multiset(s)
    ensures s[0] == t[0]
  {
    var i :| 0 <= i < |t| && t[i] == s[0];
    var j :| 0 <= j < |s| && s[j] == t[0];
    if i > 0 {
      assert before(t[0], t[i]);
    }
  }

  lemma RestSorted<T(!new)>(s: seq<T>, before: (T, T) -> bool)
    requires s != []
    ensures Sorted(s, before) ==> Sorted(s[1..], before)
    ensures StrictlySorted(s, before) ==> StrictlySorted(s[1..], before)
  {
  }

  lemma RestOf<T>(s: seq<T>)
    requires s != []
    ensures s[0] in multiset(s) && multiset(s[1..]) == multiset(s) - multiset{s[0]}
  {
    assert s == [s[0]] + s[1..];
  }

  lemma SameLength<T>(s: seq<T>, t: seq<T>)
    requires multiset(s) == multiset(t)
    ensures |s| == |t|
  {
    assert |s| == |multiset(s)| && |t| == |multiset(t)|;
  }

  /** A strict order leaves elements only one arrangement. */
  lemma {:induction false} OneArrangement<T(!new)>(s: seq<T>, t: seq<T>, before: (T, T) -> bool)
    requires Sorted(s, before) && StrictlySorted(t, before) && multiset(s) == multiset(t)
    ensures s == t
  {
    hide Sorted, StrictlySorted;
    SameLength(s, t);
    if s != [] {
      RestOf(s);
      RestOf(t);
      RestSorted(s, before);
      RestSorted(t, before);
      SameFirst(s, t, before);
      OneArrangement(s[1..], t[1..], before);
      assert s == [s[0]] + s[1..] && t == [t[0]] + t[1..];
    }
  }

  /** If there is a strictly sorted arrangement, sorting finds it. */
  lemma SortFinds<T(!new)>(s: seq<T>, t: seq<T>, before: (T, T) -> bool)
    requires IsWeakOrder(before) && StrictlySorted(t, before) && multiset(s) == multiset(t)
    ensures Sort(s, before) == t
  {
    SortSorts(s, before);
    OneArrangement(Sort(s, before), t, before);
  }

  lemma {:induction false} DistinctCounts<T(!new)>(s: seq<T>)
    ensures Distinct(s) <==> forall x :: multiset(s)[x] <= 1
  {
    if s != [] {
      var rest := s[1..];
      assert s == [s[0]] + rest;
      DistinctCounts(rest);
      if Distinct(s) {
        assert s[0] !in rest;
        assert s[0] !in multiset(rest);
      }
      if forall x :: multiset(s)[x] <= 1 {
        assert multiset(s)[s[0]] == 1 + multiset(rest)[s[0]];
        assert s[0] !in multiset(rest);
        assert forall x :: multiset(rest)[x] <= multiset(s)[x];
      }
    }
  }

  /** Without duplicates to begin with, sorting alone gives a strict order. */
  lemma SortedDistinct<T(!new)>(s: seq<T>, before: (T, T) -> bool)
    requires IsOrder(before) && Distinct(s)
    ensures StrictlySorted(Sort(s, before), before)
    ensures forall x :: x in Sort(s, before) <==> x in s
  {
    OrderIsWeak(before);
    SortSorts(s, before);
    DistinctCounts(s);
    DistinctCounts(Sort(s, before));
    assert forall x :: x in s <==> x in multiset(s);
    assert forall x :: x in Sort(s, before) <==> x in multiset(Sort(s, before));
  }

  lemma {:induction false} InsertKeepsElements<T>(x: T, s: seq<T>, before: (T, T) -> bool)
    ensures multiset(InsertSorted(x, s, before)) == multiset(s) + multiset{x}
  {
    if s != [] {
      assert s == [s[0]] + s[1..];
      InsertKeepsElements(x, s[1..], before);
    }
  }

  /** Whatever the comparison, sorting only reorders. */
  lemma {:induction false} SortKeepsElements<T>(s: seq<T>, before: (T, T) -> bool)
    ensures multiset(Sort(s, before)) == multiset(s)
    ensures forall x :: x in Sort(s, before) <==> x in s
  {
    if s != [] {
      SortKeepsElements(s[1..], before);
      InsertKeepsElements(s[0], Sort(s[1..], before), before);
      assert s == [s[0]] + s[1..];
    }
    assert forall x :: x in s <==> x in multiset(s);
    assert forall x :: x in Sort(s, before) <==> x in multiset(Sort(s, before));
  }
}
