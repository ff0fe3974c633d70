/** Sums of natural-valued functions over finite sets and over sequences. */
module Sums {

  ghost function Sum<T(!new)>(s: set<T>, f: T -> nat): nat {
    if s == {} then 0 else
      var x :| x in s;
      f(x) + Sum(s - {x}, f)
  }

  function SumSeq<T>(s: seq<T>, f: T -> nat): nat {
    if s == [] then 0 else f(s[0]) + SumSeq(s[1..], f)
  }

  lemma {:induction false} SumRemove<T(!new)>(s: set<T>, x: T, f: T -> nat)
    requires x in s
    ensures Sum(s, f) == f(x) + Sum(s - {x}, f)
    decreases s
  {
    var y :| y in s && Sum(s, f) == f(y) + Sum(s - {y}, f);
    if y != x {
      SumRemove(s - {y}, x, f);
      SumRemove(s - {x}, y, f);
      assert s - {y} - {x} == s - {x} - {y};
    }
  }

  lemma SumAdd<T(!new)>(s: set<T>, x: T, f: T -> nat)
    requires x !in s
    ensures Sum(s + {x}, f) == Sum(s, f) + f(x)
  {
    SumRemove(s + {x}, x, f);
    assert s + {x} - {x} == s;
  }

  lemma {:induction false} SumSame<T(!new)>(s: set<T>, f: T -> nat, g: T -> nat)
    requires forall x | x in s :: f(x) == g(x)
    ensures Sum(s, f) == Sum(s, g)
    decreases s
  {
    if s != {} {
      var x :| x in s;
      SumRemove(s, x, f);
      SumRemove(s, x, g);
      SumSame(s - {x}, f, g);
    }
  }

  lemma {:induction false} SumZero<T(!new)>(s: set<T>, f: T -> nat)
    ensures Sum(s, f) == 0 <==> forall x | x in s :: f(x) == 0
    decreases s
  {
    if s != {} {
      var x :| x in s;
      SumRemove(s, x, f);
      SumZero(s - {x}, f);
      assert forall y | y in s :: y == x || y in s - {x};
    }
  }

  /** A sum splits over a subset and what is left. */
  lemma {:induction false} SumSplit<T(!new)>(s: set<T>, part: set<T>, f: T -> nat)
    requires part <= s
    ensures Sum(s, f) == Sum(part, f) + Sum(s - part, f)
    decreases part
  {
    if part == {} {
      assert s - part == s;
    } else {
      var x :| x in part;
      SumRemove(s, x, f);
      SumRemove(part, x, f);
      SumSplit(s - {x}, part - {x}, f);
      assert (s - {x}) - (part - {x}) == s - part;
    }
  }

  lemma {:induction false} SumPlus<T(!new)>(s: set<T>, f: T -> nat, g: T -> nat, h: T -> nat)
    requires forall x | x in s :: h(x) == f(x) + g(x)
    ensures Sum(s, h) == Sum(s, f) + Sum(s, g)
    decreases s
  {
    if s != {} {
      var x :| x in s;
      SumRemove(s, x, f);
      SumRemove(s, x, g);
      SumRemove(s, x, h);
      SumPlus(s - {x}, f, g, h);
    }
  }

  lemma {:induction false} SumSeqConcat<T>(a: seq<T>, b: seq<T>, f: T -> nat)
    ensures SumSeq(a + b, f) == SumSeq(a, f) + SumSeq(b, f)
  {
    if a == [] {
      assert a + b == b;
    } else {
      SumSeqConcat(a[1..], b, f);
      assert (a + b)[1..] == a[1..] + b;
    }
  }

  /** `f`, weighted by how often each element occurs in `s`. */
  ghost function Weighted<T>(s: seq<T>, f: T -> nat): T -> nat {
    x => Times(multiset(s)[x], f(x))
  }

  function Times(a: nat, b: nat): nat {
    a * b
  }

  lemma TimesPlus(a: nat, b: nat, c: nat)
    ensures Times(a + b, c) == Times(a, c) + Times(b, c)
  {
  }

  lemma WeightedStep<T>(first: T, rest: seq<T>, f: T -> nat, x: T)
    ensures Weighted([first] + rest, f)(x) == (if x == first then f(x) else 0) + Weighted(rest, f)(x)
  {
    TimesPlus(if x == first then 1 else 0, multiset(rest)[x], f(x));
  }

  /** A sequence sum regrouped by element. */
  lemma {:induction false} SumSeqByElement<T(!new)>(s: seq<T>, universe: set<T>, f: T -> nat)
    requires forall x | x in s :: x in universe
    ensures SumSeq(s, f) == Sum(universe, Weighted(s, f))
  {
    if s == [] {
      SumZero(universe, Weighted(s, f));
    } else {
      var first, rest := s[0], s[1..];
      assert s == [first] + rest;
      SumSeqByElement(rest, universe, f);
      var one: T -> nat := x => if x == first then f(x) else 0;
      forall x | x in universe
        ensures Weighted(s, f)(x) == one(x) + Weighted(rest, f)(x)
      {
        WeightedStep(first, rest, f, x);
      }
      SumPlus(universe, one, Weighted(rest, f), Weighted(s, f));
      SumRemove(universe, first, one);
      SumZero(universe - {first}, one);
    }
  }

  lemma SumSeqPermuted<T(!new)>(a: seq<T>, b: seq<T>, f: T -> nat)
    requires multiset(a) == multiset(b)
    ensures SumSeq(a, f) == SumSeq(b, f)
  {
    var universe := set x | x in multiset(a);
    SumSeqByElement(a, universe, f);
    SumSeqByElement(b, universe, f);
    SumSame(universe, Weighted(a, f), Weighted(b, f));
  }
}
