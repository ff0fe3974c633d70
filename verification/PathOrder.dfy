/** Lexicographic order of strings, which is the order of Rust's path and key comparisons. */
module PathOrder {

  predicate Less(a: string, b: string) {
    if b == "" then false
    else if a == "" then true
    else a[0] < b[0] || (a[0] == b[0] && Less(a[1..], b[1..]))
  }

  lemma {:induction false} Irreflexive(a: string)
    ensures !Less(a, a)
  {
    if a != "" {
      Irreflexive(a[1..]);
    }
  }

  lemma {:induction false} Transitive(a: string, b: string, c: string)
    requires Less(a, b) && Less(b, c)
    ensures Less(a, c)
  {
    if a != "" && a[0] == b[0] && b[0] == c[0] {
      Transitive(a[1..], b[1..], c[1..]);
    }
  }

  lemma {:induction false} Total(a: string, b: string)
    ensures a == b || Less(a, b) || Less(b, a)
  {
    if a != "" && b != "" && a[0] == b[0] {
      Total(a[1..], b[1..]);
      assert a == [a[0]] + a[1..] && b == [b[0]] + b[1..];
    }
  }

  /** A proper prefix comes first, so a directory precedes everything below it. */
  lemma {:induction false} PrefixFirst(a: string, b: string)
    requires a < b
    ensures Less(a, b)
  {
    if a != "" {
      assert a[0] == b[0];
      PrefixFirst(a[1..], b[1..]);
    }
  }

  ghost predicate Increasing(keys: seq<string>) {
    forall i, j | 0 <= i < j < |keys| :: Less(keys[i], keys[j])
  }

  lemma IncreasingMeansDistinct(keys: seq<string>, i: nat, j: nat)
    requires Increasing(keys) && i < |keys| && j < |keys| && keys[i] == keys[j]
    ensures i == j
  {
    Irreflexive(keys[i]);
  }

  /** Increasing runs whose ends are in order make one increasing run. */
  lemma IncreasingConcat(a: seq<string>, b: seq<string>)
    requires Increasing(a) && Increasing(b)
    requires a != [] && b != [] ==> Less(a[|a| - 1], b[0])
    ensures Increasing(a + b)
  {
    forall i, j | 0 <= i < j < |a + b|
      ensures Less((a + b)[i], (a + b)[j])
    {
      if i < |a| <= j {
        if i < |a| - 1 {
          Transitive(a[i], a[|a| - 1], b[0]);
        }
        if j > |a| {
          Transitive(a[i], b[0], b[j - |a|]);
        }
      }
    }
  }

  // ---------------------------------------------------------------- directories and radix prefixes

  /** `parent` names a directory in which `child` lies. */
  predicate IsPathAncestor(parent: string, child: string) {
    |parent| < |child| && parent <= child && child[|parent|] == '/'
  }

  /** `next` may come right after `key` in a manifest. */
  predicate Follows(key: string, next: string) {
    Less(key, next) && !IsPathAncestor(key, next)
  }

  /** Increasing, and no key is a directory of the one right after it. */
  ghost predicate Ordered(keys: seq<string>) {
    Increasing(keys) && forall i | 0 < i < |keys| :: !IsPathAncestor(keys[i - 1], keys[i])
  }

  lemma OrderedConcat(a: seq<string>, b: seq<string>)
    requires Ordered(a) && Ordered(b)
    requires a != [] && b != [] ==> Follows(a[|a| - 1], b[0])
    ensures Ordered(a + b)
  {
    IncreasingConcat(a, b);
    forall i | 0 < i < |a + b|
      ensures !IsPathAncestor((a + b)[i - 1], (a + b)[i])
    {
      if i > |a| {
        assert (a + b)[i - 1] == b[i - 1 - |a|] && (a + b)[i] == b[i - |a|];
      }
    }
  }

  lemma OrderedParts(a: seq<string>, b: seq<string>)
    requires Ordered(a + b)
    ensures Ordered(a) && Ordered(b)
    ensures a != [] && b != [] ==> Follows(a[|a| - 1], b[0])
  {
    var all := a + b;
    assert forall i | 0 <= i < |a| :: all[i] == a[i];
    assert forall i | 0 <= i < |b| :: all[|a| + i] == b[i];
    forall i | 0 < i < |b|
      ensures !IsPathAncestor(b[i - 1], b[i])
    {
      assert all[|a| + i - 1] == b[i - 1] && all[|a| + i] == b[i];
    }
  }

  lemma NextOrdered(keys: seq<string>, i: nat)
    requires 0 < i < |keys| && Ordered(keys[..i])
    ensures Ordered(keys[..i + 1]) <==> Follows(keys[i - 1], keys[i])
    ensures Ordered(keys) ==> Follows(keys[i - 1], keys[i])
  {
    assert keys[..i + 1] == keys[..i] + [keys[i]];
    if Follows(keys[i - 1], keys[i]) {
      OrderedConcat(keys[..i], [keys[i]]);
    }
  }

  /** The longest string both begin with. */
  function CommonPrefix(a: string, b: string): (p: string)
    ensures p <= a && p <= b
    ensures |p| < |a| && |p| < |b| ==> a[|p|] != b[|p|]
  {
    if a == "" || b == "" || a[0] != b[0] then "" else [a[0]] + CommonPrefix(a[1..], b[1..])
  }

  /** The character of a key after `n` others, zero at its end. */
  function EdgeAt(key: string, n: nat): char {
    if n < |key| then key[n] else '\0'
  }
}
