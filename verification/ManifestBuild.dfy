/**
 Building a manifest from a list of files (storage/snapshot_v2.rs): entries in key order are split by
 the first byte after their common prefix until each part fits into a leaf. Whatever was built is
 accepted by validation, and whatever validation accepts is what would be built from its entries, so
 equal file lists have equal manifests.
 */
module ManifestBuild {
  import opened Outcomes
  import opened Sorting
  import opened PathOrder
  import opened Manifests
  import opened Snapshots
  import opened ManifestShape
  import opened ManifestValidation

  /** The digest of a chunk's encoding. */
  type Addresses = Chunk -> Digest

  function RefOf(address: Addresses, chunk: Chunk): ManifestRef {
    ManifestRef(if chunk.LeafChunk? then Leaf else Node, address(chunk))
  }

  // ---------------------------------------------------------------- splitting by the next byte

  function EdgeOf(e: Entry, key: string -> string, n: nat): char {
    EdgeAt(key(e.path), n)
  }

  /** How many entries at the front go on with the same byte. */
  function RunLength(entries: seq<Entry>, key: string -> string, n: nat, edge: char): (k: nat)
    ensures k <= |entries| && forall i | 0 <= i < k :: EdgeOf(entries[i], key, n) == edge
    ensures k < |entries| ==> EdgeOf(entries[k], key, n) != edge
  {
    if entries == [] || EdgeOf(entries[0], key, n) != edge then 0 else 1 + RunLength(entries[1..], key, n, edge)
  }

  /** The entries in runs that go on with the same byte after the first `n`. */
  function Split(entries: seq<Entry>, key: string -> string, n: nat): (parts: seq<seq<Entry>>)
    ensures forall part | part in parts :: part != []
    ensures entries != [] ==> parts != []
    decreases |entries|
  {
    if entries == [] then []
    else
      var k := RunLength(entries, key, n, EdgeOf(entries[0], key, n));
      [entries[..k]] + Split(entries[k..], key, n)
  }

  /** One run, then the rest. */
  lemma SplitRun(run: seq<Entry>, rest: seq<Entry>, key: string -> string, n: nat, edge: char)
    requires run != [] && forall e | e in run :: EdgeOf(e, key, n) == edge
    requires rest != [] ==> EdgeOf(rest[0], key, n) != edge
    ensures Split(run + rest, key, n) == [run] + Split(rest, key, n)
  {
    hide Split, EdgeOf;
    var all := run + rest;
    SplitStep(all, key, n);
    var k := RunLength(all, key, n, EdgeOf(all[0], key, n));
    assert forall i | 0 <= i < |run| :: all[i] == run[i] && run[i] in run;
    assert rest != [] ==> all[|run|] == rest[0];
    assert k == |run|;
    assert all[..|run|] == run && all[|run|..] == rest;
  }

  lemma SplitStep(entries: seq<Entry>, key: string -> string, n: nat)
    requires entries != []
    ensures var k := RunLength(entries, key, n, EdgeOf(entries[0], key, n));
      k > 0 && Split(entries, key, n) == [entries[..k]] + Split(entries[k..], key, n)
  {
  }

  // ---------------------------------------------------------------- the one shape

  function PrefixOf(entries: seq<Entry>, rules: ManifestRules): string
    requires entries != []
  {
    var span := SpanOf(entries, rules);
    CommonPrefix(span.first, span.last)
  }

  /**
   The chunk built from entries in key order, none if that takes more levels or a node with more
   children than can be encoded.
   */
  function ChunkFor(entries: seq<Entry>, rules: ManifestRules, address: Addresses, levels: nat): Option<Chunk>
    decreases levels, 0
  {
    if levels == 0 || entries == [] then None
    else
      var prefix := PrefixOf(entries, rules);
      if LeafLength(prefix, TotalsOf(entries, rules)) <= MANIFEST_LEAF_TARGET_BYTES || |entries| == 1 then
        Some(LeafChunk(prefix, entries))
      else
        var links := LinksFor(Split(entries, rules.key, |prefix|), rules, address, |prefix|, levels - 1);
        if links.Some? && 2 <= |links.value| <= MAX_NODE_CHILDREN then Some(NodeChunk(prefix, links.value)) else None
  }

  function LinksFor(parts: seq<seq<Entry>>, rules: ManifestRules, address: Addresses, n: nat, levels: nat)
    : (links: Option<seq<Link>>)
    ensures links.Some? ==> |links.value| == |parts|
    decreases levels, |parts|
  {
    if parts == [] then Some([])
    else if parts[0] == [] then None
    else
      var chunk := ChunkFor(parts[0], rules, address, levels);
      var rest := LinksFor(parts[1..], rules, address, n, levels);
      if chunk.None? || rest.None? then None
      else
        var edge := EdgeOf(parts[0][0], rules.key, n);
        Some([Link(edge, RefOf(address, chunk.value), TotalsOf(parts[0], rules))] + rest.value)
  }

  /** The chunks of the tree built from these entries are all stored. */
  ghost predicate Stored(store: Store, rules: ManifestRules, address: Addresses, entries: seq<Entry>, levels: nat)
    decreases levels
  {
    var chunk := ChunkFor(entries, rules, address, levels);
    && chunk.Some? && StoredAt(store, RefOf(address, chunk.value), chunk.value)
    && (chunk.value.NodeChunk? ==>
        forall part | part in PartsOf(entries, rules) :: Stored(store, rules, address, part, levels - 1))
  }

  predicate StoredAt(store: Store, r: ManifestRef, chunk: Chunk) {
    r in store && store[r] == chunk
  }

  function PartsOf(entries: seq<Entry>, rules: ManifestRules): seq<seq<Entry>>
    requires entries != []
  {
    Split(entries, rules.key, |PrefixOf(entries, rules)|)
  }

  /** Chunks are stored under their addresses. */
  ghost predicate Addressed(store: Store, address: Addresses) {
    forall r | Readable(store, r) :: r == RefOf(address, store[r])
  }

  // ---------------------------------------------------------------- what key order says about the next byte

  /** Everything between two strings with a common prefix has it too. */
  lemma {:induction false} PrefixBetween(p: string, a: string, k: string, b: string)
    requires p <= a && p <= b && (a == k || Less(a, k)) && (k == b || Less(k, b))
    ensures p <= k
  {
    if p != "" {
      assert a[0] == p[0] && b[0] == p[0];
      if k == "" {
        assert false;
      } else {
        PrefixBetween(p[1..], a[1..], k[1..], b[1..]);
        assert p == [p[0]] + p[1..] && k == [k[0]] + k[1..];
      }
    }
  }

  lemma {:induction false} EdgesFollowOrder(p: string, a: string, b: string)
    requires p <= a && p <= b && (a == b || Less(a, b))
    ensures EdgeAt(a, |p|) <= EdgeAt(b, |p|)
  {
    if p != "" && a != b {
      EdgesFollowOrder(p[1..], a[1..], b[1..]);
    }
  }

  /** A string between two that go on with the same byte goes on with it too. */
  lemma EdgeBetween(p: string, a: string, k: string, b: string)
    requires p <= a && p <= b && (a == k || Less(a, k)) && (k == b || Less(k, b))
    requires EdgeAt(a, |p|) == EdgeAt(b, |p|)
    ensures p <= k && EdgeAt(k, |p|) == EdgeAt(a, |p|)
  {
    PrefixBetween(p, a, k, b);
    EdgesFollowOrder(p, a, k);
    EdgesFollowOrder(p, k, b);
  }

  // ---------------------------------------------------------------- whatever is accepted is what would be built

  ghost predicate AllBelow(prefix: string, keys: seq<string>) {
    forall k | k in keys :: prefix <= k
  }

  lemma BetweenEnds(keys: seq<string>, i: nat)
    requires Ordered(keys) && i < |keys|
    ensures keys[0] == keys[i] || Less(keys[0], keys[i])
    ensures keys[i] == keys[|keys| - 1] || Less(keys[i], keys[|keys| - 1])
  {
  }

  /** Ordered keys all begin as the first and the last do. */
  lemma PrefixOfAll(entries: seq<Entry>, rules: ManifestRules)
    requires entries != [] && Ordered(Keys(entries, rules.key))
    ensures AllBelow(PrefixOf(entries, rules), Keys(entries, rules.key))
  {
    hide Ordered, Less, CommonPrefix, TotalsOf;
    var keys := Keys(entries, rules.key);
    forall k | k in keys
      ensures PrefixOf(entries, rules) <= k
    {
      var i :| 0 <= i < |keys| && keys[i] == k;
      BetweenEnds(keys, i);
      PrefixBetween(PrefixOf(entries, rules), keys[0], k, keys[|keys| - 1]);
    }
  }

  /** All entries of a part go on with the byte its ends go on with. */
  lemma OneEdge(entries: seq<Entry>, rules: ManifestRules, prefix: string, edge: char)
    requires entries != [] && Ordered(Keys(entries, rules.key)) && AllBelow(prefix, Keys(entries, rules.key))
    requires EdgeOf(entries[0], rules.key, |prefix|) == edge == EdgeOf(entries[|entries| - 1], rules.key, |prefix|)
    ensures forall e | e in entries :: EdgeOf(e, rules.key, |prefix|) == edge
  {
    hide Ordered, Less;
    var keys := Keys(entries, rules.key);
    forall e | e in entries
      ensures EdgeOf(e, rules.key, |prefix|) == edge
    {
      var i :| 0 <= i < |entries| && entries[i] == e;
      BetweenEnds(keys, i);
      assert keys[0] in keys && keys[|keys| - 1] in keys;
      EdgeBetween(prefix, keys[0], keys[i], keys[|keys| - 1]);
    }
  }

  /** What makes the children of a node those the build would give it. */
  ghost predicate Fitting(store: Store, rules: ManifestRules, prefix: string, links: seq<Link>, levels: nat) {
    && AllExpand(store, Targets(links), levels) && AllFine(store, rules, Targets(links))
    && Ordered(KeysBelow(store, rules, Targets(links))) && AllBelow(prefix, KeysBelow(store, rules, Targets(links)))
    && EdgesIncrease(links) && LinksFine(store, rules, prefix, links)
  }

  lemma RestOfLinks(store: Store, rules: ManifestRules, prefix: string, links: seq<Link>)
    requires links != [] && EdgesIncrease(links) && LinksFine(store, rules, prefix, links)
    ensures LinkFine(store, rules, prefix, links[0])
    ensures EdgesIncrease(links[1..]) && LinksFine(store, rules, prefix, links[1..])
  {
    hide LinkFine;
    var rest := links[1..];
    assert forall i | 0 <= i < |rest| :: rest[i] == links[i + 1];
  }

  lemma AllBelowParts(prefix: string, a: seq<string>, b: seq<string>)
    requires AllBelow(prefix, a + b)
    ensures AllBelow(prefix, a) && AllBelow(prefix, b)
  {
    assert forall k | k in a :: k in a + b;
    assert forall k | k in b :: k in a + b;
  }

  lemma ExpandParts(store: Store, r: ManifestRef, rest: seq<ManifestRef>, levels: nat)
    requires AllExpand(store, [r] + rest, levels)
    ensures Expands(store, r, levels) && AllExpand(store, rest, levels)
  {
    hide Expands;
    assert r in [r] + rest;
    assert forall k | k in rest :: k in [r] + rest;
  }

  lemma FittingParts(store: Store, rules: ManifestRules, prefix: string, links: seq<Link>, levels: nat)
    requires links != [] && Fitting(store, rules, prefix, links, levels)
    ensures var child, rest := links[0].child, links[1..];
      && Targets(links) == [child] + Targets(rest) && Fitting(store, rules, prefix, rest, levels)
      && Expands(store, child, levels) && AllFine(store, rules, [child]) && Ordered(KeysBelow(store, rules, [child]))
      && AllBelow(prefix, KeysBelow(store, rules, [child])) && LinkFine(store, rules, prefix, links[0])
      && Below(store, Targets(links)) == Below(store, [child]) + Below(store, Targets(rest))
  {
    hide Expands, ChunkFine, Ordered, LinkFine, LinksFine, EdgesIncrease, KeysBelow, Below, AllFine, AllBelow,
         AllExpand, TotalsOf, Plus;
    var child, rest := links[0].child, links[1..];
    assert Targets(links) == [child] + Targets(rest);
    RestOfLinks(store, rules, prefix, links);
    ExpandParts(store, child, Targets(rest), levels);
    BelowConcat(store, rules, [child], Targets(rest));
    FineConcat(store, rules, [child], Targets(rest));
    AllBelowParts(prefix, KeysBelow(store, rules, [child]), KeysBelow(store, rules, Targets(rest)));
    OrderedParts(KeysBelow(store, rules, [child]), KeysBelow(store, rules, Targets(rest)));
  }

  lemma LinksStep(run: seq<Entry>, parts: seq<seq<Entry>>, rules: ManifestRules, address: Addresses, n: nat,
                  levels: nat)
    requires run != [] && ChunkFor(run, rules, address, levels).Some?
    requires LinksFor(parts, rules, address, n, levels).Some?
    ensures var chunk, rest := ChunkFor(run, rules, address, levels), LinksFor(parts, rules, address, n, levels);
      var link := Link(EdgeOf(run[0], rules.key, n), RefOf(address, chunk.value), TotalsOf(run, rules));
      LinksFor([run] + parts, rules, address, n, levels) == Some([link] + rest.value)
  {
    hide ChunkFor, EdgeOf, TotalsOf;
    assert ([run] + parts)[1..] == parts;
  }

  /** A part of a node and its link: all its entries go on with the edge, and the link is what is built for it. */
  lemma LinkIsBuilt(store: Store, rules: ManifestRules, address: Addresses, prefix: string, link: Link, levels: nat)
    requires Addressed(store, address) && Readable(store, link.child) && LinkFine(store, rules, prefix, link)
    requires Ordered(KeysBelow(store, rules, [link.child])) && AllBelow(prefix, KeysBelow(store, rules, [link.child]))
    requires ChunkFor(Below(store, [link.child]), rules, address, levels) == Some(store[link.child])
    ensures var run := Below(store, [link.child]);
      && run != [] && (forall e | e in run :: EdgeOf(e, rules.key, |prefix|) == link.edge)
      && link == Link(EdgeOf(run[0], rules.key, |prefix|), RefOf(address, store[link.child]), TotalsOf(run, rules))
  {
    hide Below, Ordered, AllBelow, TotalsOf, ChunkFor, Readable;
    OneEdge(Below(store, [link.child]), rules, prefix, link.edge);
  }

  ghost predicate AllStored(store: Store, rules: ManifestRules, address: Addresses, parts: seq<seq<Entry>>,
                            levels: nat)
  {
    forall part | part in parts :: Stored(store, rules, address, part, levels)
  }

  lemma NothingIsBuilt(store: Store, rules: ManifestRules, address: Addresses, n: nat, levels: nat)
    ensures Targets([]) == [] && Below(store, []) == []
    ensures LinksFor(Split([], rules.key, n), rules, address, n, levels) == Some([])
    ensures AllStored(store, rules, address, Split([], rules.key, n), levels)
  {
  }

  lemma {:induction false} LinksAreBuilt(store: Store, rules: ManifestRules, address: Addresses, prefix: string,
                                         links: seq<Link>, levels: nat)
    requires Addressed(store, address) && levels <= MAX_LEVELS && Fitting(store, rules, prefix, links, levels)
    ensures var entries := Below(store, Targets(links));
      && LinksFor(Split(entries, rules.key, |prefix|), rules, address, |prefix|, levels) == Some(links)
      && |entries| >= |links|
      && (links != [] ==> EdgeOf(entries[0], rules.key, |prefix|) == links[0].edge)
      && AllStored(store, rules, address, Split(entries, rules.key, |prefix|), levels)
    decreases levels, |links|
  {
    hide Addressed, Fitting, Expands, AllFine, KeysBelow, Below, Ordered, AllBelow, LinkFine, ChunkFor, LinksFor, Split,
         EdgeOf, Stored;
    NothingIsBuilt(store, rules, address, |prefix|, levels);
    if links != [] {
      FittingParts(store, rules, prefix, links, levels);
      var child, rest := links[0].child, links[1..];
      var run, later := Below(store, [child]), Below(store, Targets(rest));
      AcceptedIsBuilt(store, rules, address, child, levels);
      LinkIsBuilt(store, rules, address, prefix, links[0], levels);
      LinksAreBuilt(store, rules, address, prefix, rest, levels);
      NextEdgeDiffers(store, rules, prefix, links, levels);
      assert run[0] in run && (run + later)[0] == run[0];
      assert later != [] ==> rest != [] by {
        if rest == [] {
          assert later == [];
        }
      }
      SplitRun(run, later, rules.key, |prefix|, links[0].edge);
      LinksStep(run, Split(later, rules.key, |prefix|), rules, address, |prefix|, levels);
      assert links == [links[0]] + rest;
    }
  }

  lemma NextEdgeDiffers(store: Store, rules: ManifestRules, prefix: string, links: seq<Link>, levels: nat)
    requires Fitting(store, rules, prefix, links, levels)
    ensures |links| > 1 ==> links[1].edge != links[0].edge
  {
    hide Expands, AllFine, KeysBelow, Ordered, AllBelow, LinksFine;
  }

  /** A chunk that validates is the one the build makes of the entries below it. */
  lemma {:induction false} AcceptedIsBuilt(store: Store, rules: ManifestRules, address: Addresses, r: ManifestRef,
                                           levels: nat)
    requires Addressed(store, address) && levels <= MAX_LEVELS && Expands(store, r, levels)
    requires AllFine(store, rules, [r]) && Ordered(KeysBelow(store, rules, [r]))
    ensures Readable(store, r) && r == RefOf(address, store[r])
    ensures ChunkFor(Below(store, [r]), rules, address, levels) == Some(store[r])
    ensures Stored(store, rules, address, Below(store, [r]), levels)
    decreases levels, 0
  {
    hide Addressed, AllFine, Ordered, Split, LinksFor, Below;
    AddressedAt(store, address, r);
    RootOfFine(store, rules, r);
    if r.kind.Leaf? {
      LeafWalk(store, r);
      LeafIsBuilt(rules, address, store[r], levels);
    } else {
      var prefix, links := store[r].prefix, store[r].links;
      NodeIsFitting(store, rules, r, levels);
      LinksAreBuilt(store, rules, address, prefix, links, levels - 1);
      NodeIsBuilt(rules, address, Below(store, [r]), store[r], levels);
    }
  }

  lemma AddressedAt(store: Store, address: Addresses, r: ManifestRef)
    requires Addressed(store, address)
    ensures Readable(store, r) ==> r == RefOf(address, store[r])
  {
    hide Readable;
  }

  lemma RootOfFine(store: Store, rules: ManifestRules, r: ManifestRef)
    requires AllFine(store, rules, [r])
    ensures ChunkFine(store, rules, r)
  {
    hide ChunkFine;
    RootIsMet(store, r, MAX_LEVELS);
  }

  lemma LeafIsBuilt(rules: ManifestRules, address: Addresses, chunk: Chunk, levels: nat)
    requires chunk.LeafChunk? && LeafShape(rules, chunk.prefix, chunk.entries) && levels > 0
    ensures ChunkFor(chunk.entries, rules, address, levels) == Some(chunk)
  {
    hide Split, LinksFor, TotalsOf, CommonPrefix;
  }

  lemma NodeIsFitting(store: Store, rules: ManifestRules, r: ManifestRef, levels: nat)
    requires levels <= MAX_LEVELS && Expands(store, r, levels) && r.kind.Node?
    requires AllFine(store, rules, [r]) && Ordered(KeysBelow(store, rules, [r])) && ChunkFine(store, rules, r)
    ensures Fitting(store, rules, store[r].prefix, store[r].links, levels - 1)
    ensures Below(store, [r]) == Below(store, Targets(store[r].links)) && Below(store, [r]) != []
    ensures ClosingShape(store[r].prefix, SpanOf(Below(store, [r]), rules)) && |store[r].links| >= 2
  {
    hide AllFine, Ordered, LinksFine, EdgesIncrease, Below, TotalsOf, CommonPrefix, AllBelow;
    NodeFine(store, rules, r, levels - 1);
    PrefixOfAll(Below(store, [r]), rules);
  }

  lemma NodeIsBuilt(rules: ManifestRules, address: Addresses, entries: seq<Entry>, chunk: Chunk, levels: nat)
    requires chunk.NodeChunk? && levels > 0 && |entries| >= |chunk.links| && 2 <= |chunk.links| <= MAX_NODE_CHILDREN
    requires ClosingShape(chunk.prefix, SpanOf(entries, rules))
    requires LinksFor(Split(entries, rules.key, |chunk.prefix|), rules, address, |chunk.prefix|, levels - 1)
      == Some(chunk.links)
    ensures ChunkFor(entries, rules, address, levels) == Some(chunk) && PrefixOf(entries, rules) == chunk.prefix
  {
    hide Split, LinksFor, TotalsOf, CommonPrefix;
  }

  /** Two manifests that validate and hold the same entries are one. */
  lemma CanonicalFormIsUnique(store: Store, rules: ManifestRules, address: Addresses, a: ManifestRef, b: ManifestRef)
    requires Addressed(store, address) && Orderly(store, rules, [a]) && Orderly(store, rules, [b])
    requires Below(store, [a]) == Below(store, [b])
    ensures a == b
  {
    hide Addressed, AllFine, Ordered, Expands, KeysBelow, Below, ChunkFor, TotalsOf;
    assert a in [a] && b in [b];
    AcceptedIsBuilt(store, rules, address, a, MAX_LEVELS);
    AcceptedIsBuilt(store, rules, address, b, MAX_LEVELS);
  }

  // ---------------------------------------------------------------- whatever was built is accepted

  function Concat(parts: seq<seq<Entry>>): seq<Entry> {
    if parts == [] then [] else parts[0] + Concat(parts[1..])
  }

  lemma {:induction false} ConcatMore(parts: seq<seq<Entry>>, part: seq<Entry>)
    ensures Concat(parts + [part]) == Concat(parts) + part
  {
    if parts != [] {
      ConcatMore(parts[1..], part);
      assert (parts + [part])[1..] == parts[1..] + [part];
    } else {
      assert (parts + [part])[1..] == [];
    }
  }

  lemma {:induction false} ConcatBoth(a: seq<seq<Entry>>, b: seq<seq<Entry>>)
    ensures Concat(a + b) == Concat(a) + Concat(b)
  {
    if a == [] {
      assert a + b == b;
    } else {
      ConcatBoth(a[1..], b);
      assert (a + b)[1..] == a[1..] + b;
    }
  }

  /** Each part goes on with one byte, and the next part with another. */
  ghost predicate Runs(parts: seq<seq<Entry>>, key: string -> string, n: nat) {
    && (forall i | 0 <= i < |parts| :: parts[i] != [])
    && (forall i, e | 0 <= i < |parts| && e in parts[i] :: EdgeOf(e, key, n) == EdgeOf(parts[i][0], key, n))
    && forall i | 0 < i < |parts| :: EdgeOf(parts[i - 1][0], key, n) != EdgeOf(parts[i][0], key, n)
  }

  lemma {:induction false} SplitIsRuns(entries: seq<Entry>, key: string -> string, n: nat)
    ensures Concat(Split(entries, key, n)) == entries && Runs(Split(entries, key, n), key, n)
    ensures entries != [] ==> Split(entries, key, n)[0][0] == entries[0]
    decreases |entries|
  {
    hide EdgeOf;
    if entries != [] {
      var k := RunLength(entries, key, n, EdgeOf(entries[0], key, n));
      SplitStep(entries, key, n);
      SplitIsRuns(entries[k..], key, n);
      var parts, rest := Split(entries, key, n), Split(entries[k..], key, n);
      assert parts[1..] == rest && entries[..k] + entries[k..] == entries;
      RunsStep(entries[..k], rest, key, n);
    }
  }

  lemma RunsStep(run: seq<Entry>, rest: seq<seq<Entry>>, key: string -> string, n: nat)
    requires run != [] && Runs(rest, key, n)
    requires forall e | e in run :: EdgeOf(e, key, n) == EdgeOf(run[0], key, n)
    requires rest != [] ==> EdgeOf(rest[0][0], key, n) != EdgeOf(run[0], key, n)
    ensures Runs([run] + rest, key, n)
  {
    hide EdgeOf;
    var parts := [run] + rest;
    forall i, e | 0 <= i < |parts| && e in parts[i]
      ensures EdgeOf(e, key, n) == EdgeOf(parts[i][0], key, n)
    {
      if i > 0 {
        assert parts[i] == rest[i - 1];
      }
    }
    assert forall i | 0 < i < |parts| :: parts[i] == rest[i - 1] && parts[i] != [];
    forall i | 0 < i < |parts|
      ensures EdgeOf(parts[i - 1][0], key, n) != EdgeOf(parts[i][0], key, n)
    {
      if i > 1 {
        assert parts[i - 1] == rest[i - 2];
      }
    }
  }

  lemma {:induction false} LinkAt(parts: seq<seq<Entry>>, rules: ManifestRules, address: Addresses, n: nat, levels: nat,
                                  i: nat)
    requires LinksFor(parts, rules, address, n, levels).Some? && i < |parts|
    ensures parts[i] != [] && ChunkFor(parts[i], rules, address, levels).Some?
    ensures LinksFor(parts, rules, address, n, levels).value[i]
         == Link(EdgeOf(parts[i][0], rules.key, n), RefOf(address, ChunkFor(parts[i], rules, address, levels).value),
                 TotalsOf(parts[i], rules))
    decreases |parts|
  {
    hide ChunkFor, EdgeOf, TotalsOf;
    if i > 0 {
      LinkAt(parts[1..], rules, address, n, levels, i - 1);
    }
  }

  /** What a node over these parts needs of the entries. */
  ghost predicate Partitioned(rules: ManifestRules, prefix: string, parts: seq<seq<Entry>>) {
    && Runs(parts, rules.key, |prefix|) && Ordered(Keys(Concat(parts), rules.key))
    && TotalsFit(TotalsOf(Concat(parts), rules)) && AllBelow(prefix, Keys(Concat(parts), rules.key))
  }

  /** Part `i` and the parts before it. */
  lemma PartsSoFar(rules: ManifestRules, prefix: string, parts: seq<seq<Entry>>, i: nat)
    requires Partitioned(rules, prefix, parts) && i < |parts|
    ensures var before, part := Concat(parts[..i]), parts[i];
      && Concat(parts[..i + 1]) == before + part && part != []
      && Ordered(Keys(part, rules.key)) && TotalsFit(TotalsOf(part, rules)) && AllBelow(prefix, Keys(part, rules.key))
      && (before != [] ==> CanFollow(SpanOf(before, rules), SpanOf(part, rules)))
      && (before != [] ==> SpanOf(before + part, rules) == Joined(SpanOf(before, rules), SpanOf(part, rules)))
  {
    hide Ordered, TotalsOf, AllBelow, Runs, Follows, Plus;
    var before, part, after := Concat(parts[..i]), parts[i], Concat(parts[i + 1..]);
    ConcatMore(parts[..i], part);
    assert parts[..i] + [part] == parts[..i + 1] && parts[..i + 1] + parts[i + 1..] == parts;
    ConcatBoth(parts[..i + 1], parts[i + 1..]);
    KeysConcat(before + part, after, rules.key);
    KeysConcat(before, part, rules.key);
    OrderedParts(Keys(before + part, rules.key), Keys(after, rules.key));
    OrderedParts(Keys(before, rules.key), Keys(part, rules.key));
    AllBelowParts(prefix, Keys(before + part, rules.key), Keys(after, rules.key));
    AllBelowParts(prefix, Keys(before, rules.key), Keys(part, rules.key));
    TotalsConcat(before + part, after, rules);
    TotalsConcat(before, part, rules);
    SmallerTotals(TotalsOf(before + part, rules), TotalsOf(after, rules));
    SmallerTotals(TotalsOf(before, rules), TotalsOf(part, rules));
    RunIsNotEmpty(parts, rules.key, |prefix|, i);
    if before != [] {
      SpanConcat(before, part, rules);
    }
  }

  lemma SmallerTotals(a: Totals, b: Totals)
    requires TotalsFit(Plus(a, b))
    ensures TotalsFit(a) && TotalsFit(b)
  {
  }

  lemma RunIsNotEmpty(parts: seq<seq<Entry>>, key: string -> string, n: nat, i: nat)
    requires Runs(parts, key, n) && i < |parts|
    ensures parts[i] != []
  {
  }

  ghost predicate AllEncode(store: Store, rules: ManifestRules) {
    forall r | r in store :: rules.encodes(r)
  }

  /** A tree that holds just these entries. */
  ghost predicate Holds(store: Store, rules: ManifestRules, r: ManifestRef, entries: seq<Entry>, info: ValidationInfo) {
    entries != [] && Describes(store, rules, r, info) && info.span == SpanOf(entries, rules)
      && Below(store, [r]) == entries
  }

  lemma PartIsLinked(store: Store, rules: ManifestRules, prefix: string, link: Link, part: seq<Entry>,
                     info: ValidationInfo)
    requires part != [] && Holds(store, rules, link.child, part, info)
    requires link.edge == EdgeOf(part[0], rules.key, |prefix|) && link.totals == TotalsOf(part, rules)
    requires forall e | e in part :: EdgeOf(e, rules.key, |prefix|) == EdgeOf(part[0], rules.key, |prefix|)
    requires AllBelow(prefix, Keys(part, rules.key))
    ensures LinkFine(store, rules, prefix, link)
  {
    hide Describes, Below, TotalsOf, LinkFine;
    var keys := Keys(part, rules.key);
    assert keys[0] in keys && part[0] in part && part[|part| - 1] in part;
    LinkIsFine(store, rules, prefix, link, info);
  }

  /** The first `i` parts of a node, all built. */
  ghost predicate Built(store: Store, rules: ManifestRules, prefix: string, parts: seq<seq<Entry>>, links: seq<Link>,
                        i: nat, info: ValidationInfo)
    requires i <= |parts| && |links| == |parts|
  {
    var refs, entries := Targets(links)[..i], Concat(parts[..i]);
    && Joining(store, rules, refs, info) && Below(store, refs) == entries
    && (i == 0 <==> info.height == 0) && (i > 0 ==> entries != [] && info.span == SpanOf(entries, rules))
    && forall k | 0 <= k < i :: LinkFine(store, rules, prefix, links[k])
  }

  lemma OneMoreBuilt(store: Store, rules: ManifestRules, prefix: string, parts: seq<seq<Entry>>, links: seq<Link>,
                     i: nat, before: ValidationInfo, info: ValidationInfo)
    returns (next: ValidationInfo)
    requires i < |parts| && |links| == |parts| && Built(store, rules, prefix, parts, links, i, before)
    requires Partitioned(rules, prefix, parts) && Holds(store, rules, links[i].child, parts[i], info)
    requires links[i].edge == EdgeOf(parts[i][0], rules.key, |prefix|) && links[i].totals == TotalsOf(parts[i], rules)
    ensures Built(store, rules, prefix, parts, links, i + 1, next)
    ensures next.height == Max(before.height, info.height + 1)
  {
    hide Describes, Siblings, Below, CanFollow, Joined, SpanOf, TotalsOf, LinkFine, Partitioned, Runs, AllBelow;
    var refs, child := Targets(links), links[i].child;
    assert refs[..i + 1] == refs[..i] + [child];
    PartsSoFar(rules, prefix, parts, i);
    PartGoesOn(rules, prefix, parts, i);
    PartIsLinked(store, rules, prefix, links[i], parts[i], info);
    BelowConcat(store, rules, refs[..i], [child]);
    if i == 0 {
      FirstSibling(store, rules, child, info);
      assert refs[..0] + [child] == [child] && Concat(parts[..0]) + parts[0] == parts[0];
      next := ValidationInfo(info.height + 1, info.span);
    } else {
      NextSibling(store, rules, refs[..i], child, before, info);
      next := ValidationInfo(Max(before.height, info.height + 1), Joined(before.span, info.span));
    }
  }

  lemma PartGoesOn(rules: ManifestRules, prefix: string, parts: seq<seq<Entry>>, i: nat)
    requires Partitioned(rules, prefix, parts) && i < |parts|
    ensures parts[i] != []
    ensures forall e | e in parts[i] :: EdgeOf(e, rules.key, |prefix|) == EdgeOf(parts[i][0], rules.key, |prefix|)
  {
    hide EdgeOf, AllBelow, Ordered, TotalsOf;
  }

  lemma NothingBuilt(store: Store, rules: ManifestRules, prefix: string, parts: seq<seq<Entry>>, links: seq<Link>)
    requires |links| == |parts|
    ensures Built(store, rules, prefix, parts, links, 0, ValidationInfo(0, Span("", "", NOTHING)))
  {
    assert Targets(links)[..0] == [];
  }

  lemma {:induction false} PartsAreBuilt(store: Store, rules: ManifestRules, address: Addresses, prefix: string,
                                         parts: seq<seq<Entry>>, links: seq<Link>, levels: nat, i: nat)
    returns (info: ValidationInfo)
    requires levels <= MAX_LEVELS && AllEncode(store, rules) && Partitioned(rules, prefix, parts)
    requires LinksFor(parts, rules, address, |prefix|, levels) == Some(links) && i <= |parts|
    requires AllStored(store, rules, address, parts, levels)
    ensures Built(store, rules, prefix, parts, links, i, info) && info.height <= levels
    decreases levels, i
  {
    hide Built, Holds, Partitioned, LinksFor, ChunkFor, Stored, AllStored, EdgeOf, AllEncode, Keys, TotalsOf, TotalsFit,
         Ordered;
    if i == 0 {
      NothingBuilt(store, rules, prefix, parts, links);
      info := ValidationInfo(0, Span("", "", NOTHING));
    } else {
      var before := PartsAreBuilt(store, rules, address, prefix, parts, links, levels, i - 1);
      LinkAt(parts, rules, address, |prefix|, levels, i - 1);
      PartIsSound(rules, prefix, parts, i - 1);
      PartIsStored(store, rules, address, parts, levels, i - 1);
      var part := StoredIsAccepted(store, rules, address, parts[i - 1], levels);
      info := OneMoreBuilt(store, rules, prefix, parts, links, i - 1, before, part);
    }
  }

  lemma PartIsStored(store: Store, rules: ManifestRules, address: Addresses, parts: seq<seq<Entry>>, levels: nat,
                     i: nat)
    requires AllStored(store, rules, address, parts, levels) && i < |parts|
    ensures Stored(store, rules, address, parts[i], levels)
  {
    hide Stored;
    assert parts[i] in parts;
  }

  lemma PartIsSound(rules: ManifestRules, prefix: string, parts: seq<seq<Entry>>, i: nat)
    requires Partitioned(rules, prefix, parts) && i < |parts|
    ensures parts[i] != [] && Ordered(Keys(parts[i], rules.key)) && TotalsFit(TotalsOf(parts[i], rules))
  {
    hide Partitioned, Ordered, TotalsOf;
    PartsSoFar(rules, prefix, parts, i);
  }

  lemma EncodedAt(store: Store, rules: ManifestRules, r: ManifestRef)
    requires AllEncode(store, rules) && r in store
    ensures rules.encodes(r)
  {
  }

  lemma {:induction false} CountOf(entries: seq<Entry>, rules: ManifestRules)
    ensures TotalsOf(entries, rules).count == |entries|
  {
    if entries != [] {
      CountOf(entries[1..], rules);
    }
  }

  lemma LeafIsAccepted(store: Store, rules: ManifestRules, r: ManifestRef, entries: seq<Entry>)
    requires r in store && r.kind.Leaf? && store[r].LeafChunk? && store[r].entries == entries && rules.encodes(r)
    requires LeafShape(rules, store[r].prefix, entries)
    requires Ordered(Keys(entries, rules.key)) && TotalsFit(TotalsOf(entries, rules))
    ensures Holds(store, rules, r, entries, ValidationInfo(0, SpanOf(entries, rules)))
  {
    hide Ordered, TotalsOf, Describes, Below, CommonPrefix;
    CountOf(entries, rules);
    LeafWalk(store, r);
    LeafDescribed(store, rules, r);
  }

  lemma PartsPartition(rules: ManifestRules, entries: seq<Entry>)
    requires entries != [] && Ordered(Keys(entries, rules.key)) && TotalsFit(TotalsOf(entries, rules))
    ensures Partitioned(rules, PrefixOf(entries, rules), PartsOf(entries, rules))
    ensures Concat(PartsOf(entries, rules)) == entries
  {
    hide Ordered, TotalsOf, PrefixOf, Split, AllBelow, Runs;
    SplitIsRuns(entries, rules.key, |PrefixOf(entries, rules)|);
    PrefixOfAll(entries, rules);
  }

  lemma PartsInOrder(rules: ManifestRules, prefix: string, parts: seq<seq<Entry>>, i: nat)
    requires Partitioned(rules, prefix, parts) && 0 < i < |parts|
    ensures parts[i - 1] != [] && parts[i] != []
    ensures EdgeOf(parts[i - 1][0], rules.key, |prefix|) < EdgeOf(parts[i][0], rules.key, |prefix|)
  {
    hide Partitioned, TotalsOf, Less, Ordered;
    PartsSoFar(rules, prefix, parts, i - 1);
    PartsSoFar(rules, prefix, parts, i);
    PartGoesOn(rules, prefix, parts, i - 1);
    EdgesDiffer(rules, prefix, parts, i);
    var a, b := parts[i - 1], parts[i];
    var last, first := rules.key(a[|a| - 1].path), rules.key(b[0].path);
    assert Concat(parts[..i]) == Concat(parts[..i - 1]) + a;
    assert a[|a| - 1] in a && Keys(a, rules.key)[|a| - 1] in Keys(a, rules.key);
    assert Keys(b, rules.key)[0] in Keys(b, rules.key);
    assert prefix <= last && prefix <= first && Less(last, first);
    EdgesFollowOrder(prefix, last, first);
  }

  lemma EdgesDiffer(rules: ManifestRules, prefix: string, parts: seq<seq<Entry>>, i: nat)
    requires Partitioned(rules, prefix, parts) && 0 < i < |parts|
    ensures parts[i - 1] != [] && parts[i] != []
    ensures EdgeOf(parts[i - 1][0], rules.key, |prefix|) != EdgeOf(parts[i][0], rules.key, |prefix|)
  {
    hide TotalsOf, Ordered, EdgeOf, AllBelow;
  }

  lemma LinksIncrease(rules: ManifestRules, address: Addresses, prefix: string, parts: seq<seq<Entry>>,
                      links: seq<Link>, levels: nat)
    requires Partitioned(rules, prefix, parts) && LinksFor(parts, rules, address, |prefix|, levels) == Some(links)
    ensures EdgesIncrease(links)
  {
    hide Partitioned, LinksFor, ChunkFor, EdgeOf;
    forall i | 0 < i < |links|
      ensures links[i - 1].edge < links[i].edge
    {
      LinkAt(parts, rules, address, |prefix|, levels, i - 1);
      LinkAt(parts, rules, address, |prefix|, levels, i);
      PartsInOrder(rules, prefix, parts, i);
    }
  }

  lemma NodeIsAccepted(store: Store, rules: ManifestRules, r: ManifestRef, entries: seq<Entry>, below: ValidationInfo)
    requires entries != [] && r in store && r.kind.Node? && store[r].NodeChunk? && rules.encodes(r)
    requires store[r].prefix == PrefixOf(entries, rules) && 2 <= |store[r].links| <= MAX_NODE_CHILDREN
    requires |store[r].links| == |PartsOf(entries, rules)| && Concat(PartsOf(entries, rules)) == entries
    requires Built(store, rules, store[r].prefix, PartsOf(entries, rules), store[r].links, |store[r].links|, below)
    requires EdgesIncrease(store[r].links) && below.height <= MAX_MANIFEST_DEPTH
    requires !LeafShape(rules, PrefixOf(entries, rules), entries)
    ensures Holds(store, rules, r, entries, below)
  {
    hide TotalsOf, Describes, Below, EdgesIncrease, Split, LinkFine, CommonPrefix, Spans;
    var links, parts := store[r].links, PartsOf(entries, rules);
    assert Targets(links)[..|links|] == Targets(links) == Children(store, r) && parts[..|parts|] == parts;
    NodeFromSiblings(store, rules, r, below);
    NodeWalk(store, r, below.height);
  }

  /** The builder makes a leaf exactly where a leaf is canonical. */
  lemma LeafWhereCanonical(entries: seq<Entry>, rules: ManifestRules)
    requires entries != []
    ensures LeafShape(rules, PrefixOf(entries, rules), entries) <==>
      LeafLength(PrefixOf(entries, rules), TotalsOf(entries, rules)) <= MANIFEST_LEAF_TARGET_BYTES || |entries| == 1
  {
  }

  /** A stored tree that was built from ordered entries validates and holds these entries. */
  lemma {:induction false} StoredIsAccepted(store: Store, rules: ManifestRules, address: Addresses, entries: seq<Entry>,
                                            levels: nat)
    returns (info: ValidationInfo)
    requires levels <= MAX_LEVELS && AllEncode(store, rules) && Stored(store, rules, address, entries, levels)
    requires Ordered(Keys(entries, rules.key)) && TotalsFit(TotalsOf(entries, rules))
    ensures ChunkFor(entries, rules, address, levels).Some? && info.height < levels
    ensures Holds(store, rules, RefOf(address, ChunkFor(entries, rules, address, levels).value), entries, info)
    decreases levels, 0
  {
    hide AllEncode, Ordered, TotalsOf, Describes, Built, Holds, LinksFor, Split, PrefixOf, Partitioned, EdgesIncrease,
         LeafShape;
    var chunk := ChunkFor(entries, rules, address, levels).value;
    var r := RefOf(address, chunk);
    EncodedAt(store, rules, r);
    LeafWhereCanonical(entries, rules);
    if chunk.LeafChunk? {
      LeafIsAccepted(store, rules, r, entries);
      info := ValidationInfo(0, SpanOf(entries, rules));
    } else {
      var parts, links := PartsOf(entries, rules), chunk.links;
      PartsPartition(rules, entries);
      LinksIncrease(rules, address, chunk.prefix, parts, links, levels - 1);
      var below := PartsAreBuilt(store, rules, address, chunk.prefix, parts, links, levels - 1, |parts|);
      NodeIsAccepted(store, rules, r, entries, below);
      info := below;
    }
  }

  // ---------------------------------------------------------------- accepted exactly when built

  /** `r` is the root of the stored tree built from these entries. */
  ghost predicate BuiltFrom(store: Store, rules: ManifestRules, address: Addresses, r: ManifestRef,
                            entries: seq<Entry>)
  {
    && Ordered(Keys(entries, rules.key)) && TotalsFit(TotalsOf(entries, rules))
    && Stored(store, rules, address, entries, MAX_LEVELS)
    && r == RefOf(address, ChunkFor(entries, rules, address, MAX_LEVELS).value)
  }

  /** A built tree validates, and gives back the entries it was built from. */
  lemma BuiltIsOrderly(store: Store, rules: ManifestRules, address: Addresses, r: ManifestRef, entries: seq<Entry>)
    requires AllEncode(store, rules) && BuiltFrom(store, rules, address, r, entries)
    ensures Orderly(store, rules, [r]) && Below(store, [r]) == entries
  {
    hide AllEncode, Ordered, TotalsOf, Describes, Stored, ChunkFor, Below, Orderly;
    var info := StoredIsAccepted(store, rules, address, entries, MAX_LEVELS);
    DescribedIsOrderly(store, rules, r, info);
  }

  lemma OrderlyIsBuilt(store: Store, rules: ManifestRules, address: Addresses, r: ManifestRef)
    requires Addressed(store, address) && Orderly(store, rules, [r])
    ensures BuiltFrom(store, rules, address, r, Below(store, [r]))
  {
    hide Addressed, AllFine, Ordered, Expands, Below, ChunkFor, TotalsOf, Stored;
    assert r in [r];
    AcceptedIsBuilt(store, rules, address, r, MAX_LEVELS);
  }

  /** A manifest validates exactly when it is what would be built from some list of files. */
  lemma AcceptedExactlyWhenBuilt(store: Store, rules: ManifestRules, address: Addresses, r: ManifestRef)
    requires Addressed(store, address) && AllEncode(store, rules)
    ensures Orderly(store, rules, [r]) <==> exists entries :: BuiltFrom(store, rules, address, r, entries)
  {
    hide Addressed, AllEncode, BuiltFrom, Orderly;
    if Orderly(store, rules, [r]) {
      OrderlyIsBuilt(store, rules, address, r);
    }
    if entries :| BuiltFrom(store, rules, address, r, entries) {
      BuiltIsOrderly(store, rules, address, r, entries);
    }
  }

  // ---------------------------------------------------------------- the build itself

  datatype BuildError = Unordered | SummaryOverflow | TooDeep | Unary | TooManyChildren

  datatype BuiltRange = BuiltRange(reference: ManifestRef, totals: Totals)

  /** Digests do not collide. */
  ghost predicate Injective(address: Addresses) {
    forall c, d | address(c) == address(d) :: c == d
  }

  /** Chunks already built, by their addresses. */
  ghost predicate OwnAddresses(chunks: Store, address: Addresses) {
    forall r | r in chunks :: r == RefOf(address, chunks[r])
  }

  ghost predicate Extends(small: Store, large: Store) {
    forall r | r in small :: r in large && large[r] == small[r]
  }

  lemma {:induction false} StoredInLarger(small: Store, large: Store, rules: ManifestRules, address: Addresses,
                                          entries: seq<Entry>, levels: nat)
    requires Extends(small, large) && Stored(small, rules, address, entries, levels)
    ensures Stored(large, rules, address, entries, levels)
    decreases levels
  {
    hide ChunkFor, Split;
    if ChunkFor(entries, rules, address, levels).value.NodeChunk? {
      NodeHasLevels(rules, address, entries, levels);
      forall part | part in PartsOf(entries, rules)
        ensures Stored(large, rules, address, part, levels - 1)
      {
        StoredInLarger(small, large, rules, address, part, levels - 1);
      }
    }
  }

  lemma NodeHasLevels(rules: ManifestRules, address: Addresses, entries: seq<Entry>, levels: nat)
    requires ChunkFor(entries, rules, address, levels).Some?
    ensures levels > 0 && entries != []
  {
  }

  lemma AllStoredInLarger(small: Store, large: Store, rules: ManifestRules, address: Addresses, parts: seq<seq<Entry>>,
                          levels: nat)
    requires Extends(small, large) && AllStored(small, rules, address, parts, levels)
    ensures AllStored(large, rules, address, parts, levels)
  {
    hide Stored, Extends;
    forall part | part in parts
      ensures Stored(large, rules, address, part, levels)
    {
      StoredInLarger(small, large, rules, address, part, levels);
    }
  }

  lemma LinksOfRest(parts: seq<seq<Entry>>, rules: ManifestRules, address: Addresses, n: nat, levels: nat)
    requires parts != [] && LinksFor(parts, rules, address, n, levels).Some?
    ensures parts[0] != [] && ChunkFor(parts[0], rules, address, levels).Some?
    ensures LinksFor(parts[1..], rules, address, n, levels).Some?
  {
    hide ChunkFor;
  }

  lemma {:induction false} LinksAppend(parts: seq<seq<Entry>>, run: seq<Entry>, rules: ManifestRules,
                                       address: Addresses, n: nat, levels: nat)
    requires LinksFor(parts, rules, address, n, levels).Some?
    requires run != [] && ChunkFor(run, rules, address, levels).Some?
    ensures var links, chunk := LinksFor(parts, rules, address, n, levels), ChunkFor(run, rules, address, levels);
      var link := Link(EdgeOf(run[0], rules.key, n), RefOf(address, chunk.value), TotalsOf(run, rules));
      LinksFor(parts + [run], rules, address, n, levels) == Some(links.value + [link])
    decreases |parts|
  {
    hide ChunkFor, LinksFor, EdgeOf, TotalsOf;
    var chunk := ChunkFor(run, rules, address, levels).value;
    var last := Link(EdgeOf(run[0], rules.key, n), RefOf(address, chunk), TotalsOf(run, rules));
    if parts == [] {
      NoLinks(rules, address, n, levels);
      LinksStep(run, [], rules, address, n, levels);
      assert [run] + [] == [run] == parts + [run] && [last] + [] == [] + [last];
    } else {
      var first, rest := parts[0], parts[1..];
      LinksOfRest(parts, rules, address, n, levels);
      LinksAppend(rest, run, rules, address, n, levels);
      LinksStep(first, rest, rules, address, n, levels);
      LinksStep(first, rest + [run], rules, address, n, levels);
      assert [first] + rest == parts && [first] + (rest + [run]) == parts + [run];
      var all, below :=
        LinksFor(parts, rules, address, n, levels).value, LinksFor(rest, rules, address, n, levels).value;
      assert [all[0]] + (below + [last]) == all + [last];
    }
  }

  lemma NoLinks(rules: ManifestRules, address: Addresses, n: nat, levels: nat)
    ensures LinksFor([], rules, address, n, levels) == Some([])
  {
  }

  /** The totals of all prefixes of a list. */
  ghost predicate PrefixSums(prefixes: seq<Totals>, entries: seq<Entry>, rules: ManifestRules) {
    |prefixes| == |entries| + 1 && forall i | 0 <= i <= |entries| :: prefixes[i] == TotalsOf(entries[..i], rules)
  }

  /** The totals of a range, from those of the prefixes before and up to it. */
  method RangeSummary(prefixes: seq<Totals>, start: nat, end: nat, ghost entries: seq<Entry>,
                      ghost rules: ManifestRules)
    returns (totals: Totals)
    requires PrefixSums(prefixes, entries, rules) && start <= end <= |entries|
    ensures totals == TotalsOf(entries[start..end], rules)
  {
    assert entries[..end] == entries[..start] + entries[start..end];
    TotalsConcat(entries[..start], entries[start..end], rules);
    var before, after := prefixes[start], prefixes[end];
    totals := Totals(after.count - before.count, after.size - before.size, after.pathBytes - before.pathBytes);
  }

  /** Adds a chunk under its address; one already there is the same, as digests do not collide. */
  method InsertChunk(chunk: Chunk, address: Addresses, chunks: Store) returns (r: ManifestRef, after: Store)
    requires Injective(address) && OwnAddresses(chunks, address)
    ensures r == RefOf(address, chunk) && after == chunks[r := chunk]
    ensures OwnAddresses(after, address) && Extends(chunks, after)
  {
    r := RefOf(address, chunk);
    if r in chunks {
      assert chunks[r] == chunk;
      after := chunks;
    } else {
      after := chunks[r := chunk];
    }
  }

  /** The end of the run that begins at `start`. */
  method RunEnd(entries: seq<Entry>, key: string -> string, n: nat, start: nat, end: nat) returns (next: nat)
    requires start < end <= |entries|
    ensures start < next <= end
    ensures forall e | e in entries[start..next] :: EdgeOf(e, key, n) == EdgeOf(entries[start], key, n)
    ensures next < end ==> EdgeOf(entries[next], key, n) != EdgeOf(entries[start], key, n)
  {
    var edge := EdgeOf(entries[start], key, n);
    next := start + 1;
    while next < end && EdgeOf(entries[next], key, n) == edge
      invariant start < next <= end
      invariant forall e | e in entries[start..next] :: EdgeOf(e, key, n) == edge
    {
      assert entries[start..next + 1] == entries[start..next] + [entries[next]];
      next := next + 1;
    }
  }

  // ---------------------------------------------------------------- depth is all that can stop it

  /** Keys are bytes other than zero: no path has a zero byte. */
  ghost predicate PlainKeys(keys: seq<string>) {
    forall k, i | k in keys && 0 <= i < |k| :: 0 < k[i] as int < 256
  }

  /** Ordered keys, each of plain bytes. */
  ghost predicate OrderlyPart(entries: seq<Entry>, rules: ManifestRules) {
    Ordered(Keys(entries, rules.key)) && PlainKeys(Keys(entries, rules.key))
  }

  lemma PartOfOrderly(entries: seq<Entry>, rules: ManifestRules, start: nat, end: nat)
    requires OrderlyPart(entries, rules) && start <= end <= |entries|
    ensures OrderlyPart(entries[start..end], rules)
  {
    hide Ordered, PlainKeys;
    var all, part := Keys(entries, rules.key), Keys(entries[start..end], rules.key);
    assert part == all[start..end];
    PartOfKeys(all, start, end);
  }

  lemma PartOfKeys(keys: seq<string>, start: nat, end: nat)
    requires Ordered(keys) && PlainKeys(keys) && start <= end <= |keys|
    ensures Ordered(keys[start..end]) && PlainKeys(keys[start..end])
  {
    hide Less, IsPathAncestor;
    var part := keys[start..end];
    assert forall i | 0 <= i < |part| :: part[i] == keys[start + i];
    assert forall k | k in part :: k in keys;
  }

  /** Two plain keys in order part right after their common prefix. */
  lemma EndsPart(a: string, b: string)
    requires Less(a, b) && forall i | 0 <= i < |b| :: b[i] != '\0'
    ensures var n := |CommonPrefix(a, b)|; EdgeAt(a, n) != EdgeAt(b, n)
  {
    var p := CommonPrefix(a, b);
    if |p| == |b| {
      assert p == b;
      if b == a {
        Irreflexive(a);
      } else {
        assert b < a;
        PrefixFirst(b, a);
        Transitive(a, b, a);
        Irreflexive(a);
      }
    }
  }

  lemma NeverUnary(entries: seq<Entry>, rules: ManifestRules)
    requires |entries| >= 2 && OrderlyPart(entries, rules)
    ensures |PartsOf(entries, rules)| >= 2
  {
    hide TotalsOf, CommonPrefix;
    var keys, n := Keys(entries, rules.key), |PrefixOf(entries, rules)|;
    var parts := PartsOf(entries, rules);
    assert keys[|keys| - 1] in keys && Less(keys[0], keys[|keys| - 1]);
    EndsPart(keys[0], keys[|keys| - 1]);
    SplitIsRuns(entries, rules.key, n);
  }

  lemma {:induction false} FewEdges(links: seq<Link>, i: nat)
    requires EdgesIncrease(links) && i < |links|
    ensures links[i].edge as int >= i
  {
    if i > 0 {
      FewEdges(links, i - 1);
    }
  }

  lemma NeverTooMany(entries: seq<Entry>, rules: ManifestRules, address: Addresses, links: seq<Link>, levels: nat)
    requires entries != [] && OrderlyPart(entries, rules) && TotalsFit(TotalsOf(entries, rules))
    requires LinksFor(PartsOf(entries, rules), rules, address, |PrefixOf(entries, rules)|, levels) == Some(links)
    ensures |links| <= MAX_NODE_CHILDREN
  {
    hide TotalsOf, CommonPrefix, Ordered, LinksFor, Split, PrefixOf, ChunkFor, Partitioned;
    PartsPartition(rules, entries);
    var parts, n := PartsOf(entries, rules), |PrefixOf(entries, rules)|;
    LinksIncrease(rules, address, PrefixOf(entries, rules), parts, links, levels);
    if links != [] {
      var last := |links| - 1;
      FewEdges(links, last);
      LinkAt(parts, rules, address, n, levels, last);
      PartOfWhole(rules, PrefixOf(entries, rules), parts, last);
      var e := parts[last][0];
      var k :| 0 <= k < |entries| && entries[k] == e;
      assert Keys(entries, rules.key)[k] in Keys(entries, rules.key);
    }
  }

  lemma PartOfWhole(rules: ManifestRules, prefix: string, parts: seq<seq<Entry>>, i: nat)
    requires Partitioned(rules, prefix, parts) && i < |parts|
    ensures parts[i] != [] && parts[i][0] in Concat(parts)
  {
    hide Partitioned;
    PartsSoFar(rules, prefix, parts, i);
    ConcatBoth(parts[..i + 1], parts[i + 1..]);
    assert parts[..i + 1] + parts[i + 1..] == parts;
    assert parts[i][0] in parts[i] && parts[i][0] in Concat(parts[..i]) + parts[i];
  }

  /** Entries in order, with plain keys and totals in range. */
  ghost predicate Buildable(entries: seq<Entry>, rules: ManifestRules) {
    OrderlyPart(entries, rules) && TotalsFit(TotalsOf(entries, rules))
  }

  /** A range of such entries parts into at least two and at most 256 children. */
  lemma OnlyDepthStops(entries: seq<Entry>, rules: ManifestRules, address: Addresses, start: nat, end: nat,
                       links: seq<Link>, levels: nat)
    requires Buildable(entries, rules) && start + 1 < end <= |entries|
    requires var part := entries[start..end];
      LinksFor(PartsOf(part, rules), rules, address, |PrefixOf(part, rules)|, levels) == Some(links)
    ensures 2 <= |links| <= MAX_NODE_CHILDREN
  {
    hide OrderlyPart, TotalsOf, LinksFor, Split, PrefixOf;
    var a, part, c := entries[..start], entries[start..end], entries[end..];
    PartOfOrderly(entries, rules, start, end);
    assert entries == a + (part + c);
    TotalsConcat(a, part + c, rules);
    TotalsConcat(part, c, rules);
    SmallerTotals(TotalsOf(a, rules), TotalsOf(part + c, rules));
    SmallerTotals(TotalsOf(part, rules), TotalsOf(c, rules));
    NeverUnary(part, rules);
    NeverTooMany(part, rules, address, links, levels);
  }

  /** A part that cannot be built stops the node above it. */
  lemma PartIsNeeded(parts: seq<seq<Entry>>, run: seq<Entry>, rest: seq<seq<Entry>>, rules: ManifestRules,
                     address: Addresses, n: nat, levels: nat)
    requires ChunkFor(run, rules, address, levels).None?
    ensures LinksFor(parts + ([run] + rest), rules, address, n, levels).None?
  {
    hide ChunkFor, LinksFor;
    var all := parts + ([run] + rest);
    assert all[|parts|] == run;
    if LinksFor(all, rules, address, n, levels).Some? {
      LinkAt(all, rules, address, n, levels, |parts|);
    }
  }

  /** How far the children of a node are built. */
  ghost predicate Building(after: Store, rules: ManifestRules, address: Addresses, n: nat, levels: nat,
                           part: seq<Entry>, done: seq<seq<Entry>>, links: seq<Link>, rest: seq<Entry>)
  {
    && Split(part, rules.key, n) == done + Split(rest, rules.key, n)
    && LinksFor(done, rules, address, n, levels) == Some(links) && AllStored(after, rules, address, done, levels)
  }

  lemma BuildingBegins(after: Store, rules: ManifestRules, address: Addresses, n: nat, levels: nat, part: seq<Entry>)
    ensures Building(after, rules, address, n, levels, part, [], [], part)
  {
  }

  lemma BuildingStep(before: Store, after: Store, rules: ManifestRules, address: Addresses, n: nat, levels: nat,
                     part: seq<Entry>, done: seq<seq<Entry>>, links: seq<Link>, run: seq<Entry>, rest: seq<Entry>)
    requires Building(before, rules, address, n, levels, part, done, links, run + rest) && Extends(before, after)
    requires run != [] && forall e | e in run :: EdgeOf(e, rules.key, n) == EdgeOf(run[0], rules.key, n)
    requires rest != [] ==> EdgeOf(rest[0], rules.key, n) != EdgeOf(run[0], rules.key, n)
    ensures var chunk := ChunkFor(run, rules, address, levels);
      if chunk.None? then LinksFor(Split(part, rules.key, n), rules, address, n, levels).None?
      else
        var link := Link(EdgeOf(run[0], rules.key, n), RefOf(address, chunk.value), TotalsOf(run, rules));
        Stored(after, rules, address, run, levels) ==>
          Building(after, rules, address, n, levels, part, done + [run], links + [link], rest)
  {
    hide ChunkFor, LinksFor, Split, Stored, EdgeOf, TotalsOf, Extends;
    SplitRun(run, rest, rules.key, n, EdgeOf(run[0], rules.key, n));
    assert done + ([run] + Split(rest, rules.key, n)) == (done + [run]) + Split(rest, rules.key, n);
    AllStoredInLarger(before, after, rules, address, done, levels);
    if ChunkFor(run, rules, address, levels).None? {
      PartIsNeeded(done, run, Split(rest, rules.key, n), rules, address, n, levels);
    } else {
      LinksAppend(done, run, rules, address, n, levels);
    }
  }

  lemma BuildingEnds(after: Store, rules: ManifestRules, address: Addresses, n: nat, levels: nat, part: seq<Entry>,
                     done: seq<seq<Entry>>, links: seq<Link>)
    requires Building(after, rules, address, n, levels, part, done, links, [])
    ensures LinksFor(Split(part, rules.key, n), rules, address, n, levels) == Some(links)
    ensures AllStored(after, rules, address, Split(part, rules.key, n), levels)
  {
    assert done + Split([], rules.key, n) == done;
  }

  /** Builds the children of a node, run by run. */
  method BuildChildren(entries: seq<Entry>, prefixes: seq<Totals>, n: nat, start: nat, end: nat, depth: nat,
                       rules: ManifestRules, address: Addresses, chunks: Store)
    returns (res: Result<seq<Link>, BuildError>, after: Store)
    requires start < end <= |entries| && depth <= MAX_MANIFEST_DEPTH && PrefixSums(prefixes, entries, rules)
    requires Injective(address) && OwnAddresses(chunks, address)
    ensures OwnAddresses(after, address) && Extends(chunks, after)
    ensures var links :=
      LinksFor(Split(entries[start..end], rules.key, n), rules, address, n, MAX_MANIFEST_DEPTH - depth);
      && (res.Ok? <==> links.Some?)
      && (res.Ok? ==> links == Some(res.value))
      && (res.Ok? ==>
          AllStored(after, rules, address, Split(entries[start..end], rules.key, n), MAX_MANIFEST_DEPTH - depth))
    ensures res.Err? && Buildable(entries, rules) ==> res.error.TooDeep?
    decreases MAX_MANIFEST_DEPTH - depth, 1
  {
    hide Building, PrefixSums, Injective, OwnAddresses, Extends, Stored, AllStored, ChunkFor, LinksFor, Split, EdgeOf,
         TotalsOf, Buildable;
    var links: seq<Link> := [];
    ghost var done: seq<seq<Entry>>, levels, part := [], MAX_MANIFEST_DEPTH - depth, entries[start..end];
    var childStart := start;
    after := chunks;
    BuildingBegins(after, rules, address, n, levels, part);
    ExtendsItself(chunks);
    while childStart < end
      invariant start <= childStart <= end && OwnAddresses(after, address) && Extends(chunks, after)
      invariant Building(after, rules, address, n, levels, part, done, links, entries[childStart..end])
    {
      var childEnd := RunEnd(entries, rules.key, n, childStart, end);
      ghost var before, run, rest := after, entries[childStart..childEnd], entries[childEnd..end];
      assert entries[childStart..end] == run + rest && run[0] == entries[childStart];
      assert rest != [] ==> rest[0] == entries[childEnd];
      var child: Result<BuiltRange, BuildError>;
      child, after := BuildRange(entries, prefixes, childStart, childEnd, depth + 1, rules, address, after);
      BuildingStep(before, after, rules, address, n, levels, part, done, links, run, rest);
      ExtendsThrough(chunks, before, after);
      if child.Err? {
        return Err(child.error), after;
      }
      var edge := EdgeOf(entries[childStart], rules.key, n);
      links := links + [Link(edge, child.value.reference, child.value.totals)];
      done, childStart := done + [run], childEnd;
    }
    assert entries[end..end] == [];
    BuildingEnds(after, rules, address, n, levels, part, done, links);
    return Ok(links), after;
  }

  lemma ExtendsItself(chunks: Store)
    ensures Extends(chunks, chunks)
  {
  }

  lemma ExtendsThrough(a: Store, b: Store, c: Store)
    requires Extends(a, b) && Extends(b, c)
    ensures Extends(a, c)
  {
  }

  /** Builds the chunk of a range and everything below it. */
  method BuildRange(entries: seq<Entry>, prefixes: seq<Totals>, start: nat, end: nat, depth: nat, rules: ManifestRules,
                    address: Addresses, chunks: Store)
    returns (res: Result<BuiltRange, BuildError>, after: Store)
    requires start < end <= |entries| && depth <= MAX_LEVELS && PrefixSums(prefixes, entries, rules)
    requires Injective(address) && OwnAddresses(chunks, address)
    ensures OwnAddresses(after, address) && Extends(chunks, after)
    ensures var part, levels := entries[start..end], MAX_LEVELS - depth;
      && (res.Ok? <==> ChunkFor(part, rules, address, levels).Some?)
      && (res.Ok? ==>
          && Stored(after, rules, address, part, levels) && res.value.totals == TotalsOf(part, rules)
          && res.value.reference == RefOf(address, ChunkFor(part, rules, address, levels).value))
    ensures res.Err? && Buildable(entries, rules) ==> res.error.TooDeep?
    decreases MAX_LEVELS - depth, 0
  {
    hide PrefixSums, Injective, OwnAddresses, Extends, LinksFor, Split, TotalsOf, CommonPrefix, Buildable;
    ExtendsItself(chunks);
    if depth > MAX_MANIFEST_DEPTH {
      return Err(BuildError.TooDeep), chunks;
    }
    ghost var part := entries[start..end];
    var prefix := CommonPrefix(rules.key(entries[start].path), rules.key(entries[end - 1].path));
    var totals := RangeSummary(prefixes, start, end, entries, rules);
    assert part[0] == entries[start] && part[|part| - 1] == entries[end - 1];
    if LeafLength(prefix, totals) <= MANIFEST_LEAF_TARGET_BYTES || end - start == 1 {
      var r: ManifestRef;
      r, after := InsertChunk(LeafChunk(prefix, entries[start..end]), address, chunks);
      return Ok(BuiltRange(r, totals)), after;
    }
    var links: Result<seq<Link>, BuildError>;
    links, after := BuildChildren(entries, prefixes, |prefix|, start, end, depth, rules, address, chunks);
    if links.Err? {
      return Err(links.error), after;
    }
    if Buildable(entries, rules) {
      OnlyDepthStops(entries, rules, address, start, end, links.value, MAX_MANIFEST_DEPTH - depth);
    }
    if |links.value| < 2 {
      return Err(Unary), after;
    }
    if |links.value| > MAX_NODE_CHILDREN {
      return Err(TooManyChildren), after;
    }
    ghost var before := after;
    var r: ManifestRef;
    r, after := InsertChunk(NodeChunk(prefix, links.value), address, after);
    ExtendsThrough(chunks, before, after);
    AllStoredInLarger(before, after, rules, address, PartsOf(part, rules), MAX_MANIFEST_DEPTH - depth);
    return Ok(BuiltRange(r, totals)), after;
  }

  // ---------------------------------------------------------------- a whole manifest

  predicate KeyBefore(key: string -> string, a: Entry, b: Entry) {
    Less(key(a.path), key(b.path))
  }

  /** The entries by portable key. */
  function ByKey(entries: seq<Entry>, rules: ManifestRules): seq<Entry> {
    Sort(entries, (a: Entry, b: Entry) => KeyBefore(rules.key, a, b))
  }

  lemma KeyBeforeIsWeak(key: string -> string)
    ensures IsWeakOrder((a: Entry, b: Entry) => KeyBefore(key, a, b))
  {
    var before := (a: Entry, b: Entry) => KeyBefore(key, a, b);
    forall a: Entry, b: Entry | before(a, b)
      ensures !before(b, a)
    {
      if before(b, a) {
        Transitive(key(a.path), key(b.path), key(a.path));
        Irreflexive(key(a.path));
      }
    }
    forall a: Entry, b: Entry, c: Entry | before(a, c)
      ensures before(a, b) || before(b, c)
    {
      Total(key(a.path), key(b.path));
      if Less(key(b.path), key(a.path)) {
        Transitive(key(b.path), key(a.path), key(c.path));
      }
    }
  }

  /** If the entries can be brought into the order of their keys at all, this is how they are brought. */
  lemma ByKeyFindsTheOrder(entries: seq<Entry>, ordered: seq<Entry>, rules: ManifestRules)
    requires multiset(ordered) == multiset(entries) && Increasing(Keys(ordered, rules.key))
    ensures ByKey(entries, rules) == ordered
  {
    var before := (a: Entry, b: Entry) => KeyBefore(rules.key, a, b);
    KeyBeforeIsWeak(rules.key);
    var keys := Keys(ordered, rules.key);
    assert forall i, j | 0 <= i < j < |ordered| :: before(ordered[i], ordered[j]) by {
      assert forall i, j | 0 <= i < j < |keys| :: Less(keys[i], keys[j]);
    }
    SortFinds(entries, ordered, before);
  }

  datatype BuiltManifest = BuiltManifest(root: Option<ManifestRef>, totals: Totals, chunks: Store)

  /** The manifest of these entries; an empty one has no root. */
  ghost predicate BuiltAs(built: BuiltManifest, rules: ManifestRules, address: Addresses, entries: seq<Entry>) {
    && built.totals == TotalsOf(entries, rules) && (built.root.None? <==> entries == [])
    && (built.root.Some? ==> BuiltFrom(built.chunks, rules, address, built.root.value, entries))
  }

  /** The totals of all prefixes, unless one of them leaves the range. */
  method SumUp(entries: seq<Entry>, rules: ManifestRules) returns (prefixes: Option<seq<Totals>>)
    ensures prefixes.Some? <==> TotalsFit(TotalsOf(entries, rules))
    ensures prefixes.Some? ==> PrefixSums(prefixes.value, entries, rules)
  {
    hide TotalsOf;
    var sums := [NOTHING];
    NoTotals(rules);
    assert entries[..0] == [];
    for i := 0 to |entries|
      invariant PrefixSums(sums, entries[..i], rules) && TotalsFit(TotalsOf(entries[..i], rules))
    {
      assert entries[..i + 1] == entries[..i] + [entries[i]] && entries == entries[..i + 1] + entries[i + 1..];
      TotalsConcat(entries[..i], [entries[i]], rules);
      TotalsConcat(entries[..i + 1], entries[i + 1..], rules);
      OneTotal(entries[i], rules);
      assert entries[..i][..i] == entries[..i];
      var next := Plus(sums[i], TotalsOfOne(entries[i], rules));
      if TotalsFit(TotalsOf(entries, rules)) {
        SmallerTotals(next, TotalsOf(entries[i + 1..], rules));
      }
      if !TotalsFit(next) {
        return None;
      }
      MoreSums(sums, entries, rules, i, next);
      sums := sums + [next];
    }
    assert entries[..|entries|] == entries;
    return Some(sums);
  }

  lemma NoTotals(rules: ManifestRules)
    ensures TotalsOf([], rules) == NOTHING && PrefixSums([NOTHING], [], rules)
  {
  }

  lemma OneTotal(e: Entry, rules: ManifestRules)
    ensures TotalsOf([e], rules) == TotalsOfOne(e, rules)
  {
    assert [e][1..] == [];
  }

  lemma MoreSums(sums: seq<Totals>, entries: seq<Entry>, rules: ManifestRules, i: nat, next: Totals)
    requires i < |entries| && PrefixSums(sums, entries[..i], rules) && next == TotalsOf(entries[..i + 1], rules)
    ensures PrefixSums(sums + [next], entries[..i + 1], rules)
  {
    hide TotalsOf;
    var longer := entries[..i + 1];
    forall k | 0 <= k <= |longer|
      ensures (sums + [next])[k] == TotalsOf(longer[..k], rules)
    {
      if k <= i {
        assert longer[..k] == entries[..i][..k];
      } else {
        assert longer[..k] == longer;
      }
    }
  }

  /**
   Sorts the entries by key and builds their manifest. For entries whose keys are plain bytes only
   keys out of order, totals out of range or too many levels can stop it.
   */
  method BuildManifest(files: seq<Entry>, rules: ManifestRules, address: Addresses)
    returns (res: Result<BuiltManifest, BuildError>)
    requires Injective(address)
    ensures var entries := ByKey(files, rules);
      && (res.Ok? <==>
          && Ordered(Keys(entries, rules.key)) && TotalsFit(TotalsOf(entries, rules))
          && (entries == [] || ChunkFor(entries, rules, address, MAX_LEVELS).Some?))
      && (res.Ok? ==> OwnAddresses(res.value.chunks, address) && BuiltAs(res.value, rules, address, entries))
      && (res.Err? && PlainKeys(Keys(entries, rules.key)) ==>
          res.error.Unordered? || res.error.SummaryOverflow? || res.error.TooDeep?)
  {
    hide Ordered, TotalsOf, ChunkFor, Stored, Injective, PlainKeys;
    var entries := ByKey(files, rules);
    if entries == [] {
      NoTotals(rules);
      OneIsOrdered([]);
      return Ok(BuiltManifest(None, NOTHING, map[]));
    }
    var inOrder := ValidateOrderedKeys(Keys(entries, rules.key));
    if !inOrder {
      return Err(BuildError.Unordered);
    }
    var prefixes := SumUp(entries, rules);
    if prefixes.None? {
      return Err(BuildError.SummaryOverflow);
    }
    var built, chunks := BuildRange(entries, prefixes.value, 0, |entries|, 0, rules, address, map[]);
    assert entries[0..|entries|] == entries;
    if built.Err? {
      return Err(built.error);
    }
    return Ok(BuiltManifest(Some(built.value.reference), built.value.totals, chunks));
  }

  /** In every store that holds its chunks a built manifest validates, with the entries it was built from. */
  lemma BuiltIsGenuine(store: Store, rules: ManifestRules, address: Addresses, entries: seq<Entry>,
                       built: BuiltManifest, ownProject: bool)
    requires AllEncode(store, rules) && Extends(built.chunks, store) && BuiltAs(built, rules, address, entries)
    ensures Genuine(store, rules, Header(built.root, ownProject, built.totals))
    ensures Below(store, RootOf(built.root)) == entries
  {
    hide AllEncode, Ordered, TotalsOf, ChunkFor, Stored, Extends, Orderly, Below;
    if built.root.None? {
      NothingIsOrderly(store, rules);
      NothingBelow(store);
    } else {
      StoredInLarger(built.chunks, store, rules, address, entries, MAX_LEVELS);
      BuiltIsOrderly(store, rules, address, built.root.value, entries);
    }
  }

  lemma NothingBelow(store: Store)
    ensures Below(store, []) == []
  {
  }
}
