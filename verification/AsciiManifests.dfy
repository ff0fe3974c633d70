/**
 Manifests of plain file names, for instances: the portable form of an ASCII path is the path in
 lower case. Every chunk of an instance is taken to be encoded as the code would encode it.
 */
module AsciiManifests {
  import opened PathOrder
  import opened Manifests
  import opened Snapshots
  import opened ManifestShape
  import opened ManifestValidation

  function LowerChar(c: char): (lower: char)
    ensures c < 'A' || 'Z' < c ==> lower == c
    ensures 'A' <= c <= 'Z' ==> 'a' <= lower <= 'z' && lower as int - 'a' as int == c as int - 'A' as int
  {
    if 'A' <= c <= 'Z' then (c as int + 32) as char else c
  }

  function Lower(path: string): (key: string)
    ensures |key| == |path| && forall i | 0 <= i < |path| :: key[i] == LowerChar(path[i])
  {
    seq(|path|, i requires 0 <= i < |path| => LowerChar(path[i]))
  }

  function Rules(weight: ManifestRef -> nat): ManifestRules {
    ManifestRules(Lower, path => |path|, c => true, weight)
  }

  lemma PrefixStep(a: string, b: string)
    ensures a == "" || b == "" || a[0] != b[0] ==> CommonPrefix(a, b) == ""
    ensures a != "" && b != "" && a[0] == b[0] ==> CommonPrefix(a, b) == [a[0]] + CommonPrefix(a[1..], b[1..])
  {
  }

  /** The common prefix of two strings that part after `p`. */
  lemma {:induction false} PrefixOfParting(p: string, a: string, b: string)
    requires a == "" || b == "" || a[0] != b[0]
    ensures CommonPrefix(p + a, p + b) == p
  {
    hide CommonPrefix;
    PrefixStep(p + a, p + b);
    if p == "" {
      assert p + a == a && p + b == b;
    } else {
      PrefixOfParting(p[1..], a, b);
      assert (p + a)[1..] == p[1..] + a && (p + b)[1..] == p[1..] + b;
      assert p == [p[0]] + p[1..];
    }
  }

  lemma PrefixOfSame(key: string)
    ensures CommonPrefix(key, key) == key
  {
    assert key + "" == key;
    PrefixOfParting(key, "", "");
  }

  lemma {:induction false} LessAfter(p: string, a: string, b: string)
    ensures Less(p + a, p + b) <==> Less(a, b)
  {
    if p == "" {
      assert p + a == a && p + b == b;
    } else {
      LessAfter(p[1..], a, b);
      assert (p + a)[1..] == p[1..] + a && (p + b)[1..] == p[1..] + b;
    }
  }

  // ---------------------------------------------------------------- a leaf of one entry

  function LeafOf(e: Entry): Chunk {
    LeafChunk(Lower(e.path), [e])
  }

  function InfoOf(e: Entry): ValidationInfo {
    ValidationInfo(0, Span(Lower(e.path), Lower(e.path), Totals(1, e.size, |e.path|)))
  }

  /** One entry makes a valid leaf, whatever it is. */
  lemma OneEntry(store: Store, weight: ManifestRef -> nat, r: ManifestRef, e: Entry)
    requires r in store && r.kind.Leaf? && store[r] == LeafOf(e) && TotalsFit(Totals(1, e.size, |e.path|))
    ensures Describes(store, Rules(weight), r, InfoOf(e))
    ensures ChunksOf(store, [r]) == {r} && Below(store, [r]) == [e]
  {
    hide Describes, Ordered;
    PrefixOfSame(Lower(e.path));
    assert [e][1..] == [] && TotalsOf([e], Rules(weight)) == Totals(1, e.size, |e.path|);
    var keys := Keys([e], Lower);
    OneIsOrdered(keys);
    assert keys[..1] == keys;
    LeafWalk(store, r);
    LeafDescribed(store, Rules(weight), r);
  }
}
