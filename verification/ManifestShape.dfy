/**
 What the code demands of the manifest of a snapshot (storage/snapshot_v2.rs): every chunk has the
 one canonical shape for the keys below it, keys increase, and the totals are right. Only the binary
 encoding of a chunk is an oracle.
 */
module ManifestShape {
  import opened Sums
  import opened Sequences
  import opened PathOrder
  import opened Manifests
  import opened Snapshots

  const MAX_MANIFEST_VALIDATION_CHUNKS: nat := 100_000
  const MAX_MANIFEST_VALIDATION_CACHE_BYTES: nat := 64 * 1024 * 1024
  const MANIFEST_LEAF_TARGET_BYTES: nat := 32 * 1024

  /**
   The portable form of a path, by which manifests are ordered; the bytes of a path; whether the
   stored bytes of a chunk are the encoding of what they decode to, and all paths in it have a
   portable form; the heap a cached chunk is estimated to take.
   */
  datatype ManifestRules = ManifestRules(
    key: string -> string,
    pathBytes: string -> nat,
    encodes: ManifestRef -> bool,
    weight: ManifestRef -> nat)

  /** The first and the last key of some entries, and their totals. */
  datatype Span = Span(first: string, last: string, totals: Totals)

  // ---------------------------------------------------------------- keys and totals

  function Keys(entries: seq<Entry>, key: string -> string): (keys: seq<string>)
    ensures |keys| == |entries| && forall i | 0 <= i < |keys| :: keys[i] == key(entries[i].path)
  {
    if entries == [] then [] else [key(entries[0].path)] + Keys(entries[1..], key)
  }

  const NOTHING := Totals(0, 0, 0)

  function Plus(a: Totals, b: Totals): Totals {
    Totals(a.count + b.count, a.size + b.size, a.pathBytes + b.pathBytes)
  }

  predicate TotalsFit(t: Totals) {
    t.count <= U64_MAX && t.size <= U64_MAX && t.pathBytes <= U64_MAX
  }

  function TotalsOfOne(e: Entry, rules: ManifestRules): Totals {
    Totals(1, e.size, rules.pathBytes(e.path))
  }

  function TotalsOf(entries: seq<Entry>, rules: ManifestRules): Totals {
    if entries == [] then NOTHING else Plus(TotalsOfOne(entries[0], rules), TotalsOf(entries[1..], rules))
  }

  function SpanOf(entries: seq<Entry>, rules: ManifestRules): Span
    requires entries != []
  {
    Span(rules.key(entries[0].path), rules.key(entries[|entries| - 1].path), TotalsOf(entries, rules))
  }

  /** What two neighbouring spans cover together. */
  function Joined(a: Span, b: Span): Span {
    Span(a.first, b.last, Plus(a.totals, b.totals))
  }

  /** The bytes of a leaf that holds entries with these totals. */
  function LeafLength(prefix: string, totals: Totals): nat {
    16 + 2 + 4 + |prefix| + 4 + 24 + 56 * totals.count + totals.pathBytes
  }

  ghost function Below(store: Store, rs: seq<ManifestRef>): seq<Entry> {
    Expansion(store, rs, MAX_LEVELS)
  }

  ghost function KeysBelow(store: Store, rules: ManifestRules, rs: seq<ManifestRef>): seq<string> {
    Keys(Below(store, rs), rules.key)
  }

  // ---------------------------------------------------------------- the shape of one chunk

  /** A leaf may hold these entries: they fill it, or there is only one. */
  predicate LeafShape(rules: ManifestRules, prefix: string, entries: seq<Entry>) {
    entries != [] &&
    var span := SpanOf(entries, rules);
    && (LeafLength(prefix, span.totals) <= MANIFEST_LEAF_TARGET_BYTES || |entries| == 1)
    && prefix == CommonPrefix(span.first, span.last)
  }

  /** A child lies under its edge and the node states its totals. */
  predicate LinkShape(prefix: string, link: Link, span: Span) {
    && prefix <= span.first
    && EdgeAt(span.first, |prefix|) == link.edge && EdgeAt(span.last, |prefix|) == link.edge
    && link.totals == span.totals
  }

  /** A node over this span has the right prefix and could not have been one leaf. */
  predicate ClosingShape(prefix: string, span: Span) {
    prefix == CommonPrefix(span.first, span.last) && LeafLength(prefix, span.totals) > MANIFEST_LEAF_TARGET_BYTES
  }

  predicate EdgesIncrease(links: seq<Link>) {
    forall i | 0 < i < |links| :: links[i - 1].edge < links[i].edge
  }

  ghost predicate LinkFine(store: Store, rules: ManifestRules, prefix: string, link: Link) {
    Below(store, [link.child]) != [] && LinkShape(prefix, link, SpanOf(Below(store, [link.child]), rules))
  }

  ghost predicate LinksFine(store: Store, rules: ManifestRules, prefix: string, links: seq<Link>) {
    forall i | 0 <= i < |links| :: LinkFine(store, rules, prefix, links[i])
  }

  ghost predicate NodeShape(store: Store, rules: ManifestRules, c: ManifestRef)
    requires Readable(store, c) && c.kind.Node?
  {
    var prefix, links := store[c].prefix, store[c].links;
    && |links| >= 2 && EdgesIncrease(links) && LinksFine(store, rules, prefix, links)
    && Below(store, [c]) != [] && ClosingShape(prefix, SpanOf(Below(store, [c]), rules))
  }

  ghost predicate ChunkFine(store: Store, rules: ManifestRules, c: ManifestRef) {
    && Readable(store, c) && rules.encodes(c)
    && if c.kind.Node? then NodeShape(store, rules, c) else LeafShape(rules, store[c].prefix, store[c].entries)
  }

  // ---------------------------------------------------------------- whole manifests

  ghost predicate AllFine(store: Store, rules: ManifestRules, rs: seq<ManifestRef>) {
    forall c | c in AllVisits(store, rs, MAX_LEVELS) :: ChunkFine(store, rules, c)
  }

  /** The trees below `rs` are readable, not too high, canonical, and list keys in order. */
  ghost predicate Orderly(store: Store, rules: ManifestRules, rs: seq<ManifestRef>) {
    && AllExpand(store, rs, MAX_LEVELS) && AllFine(store, rules, rs)
    && Ordered(KeysBelow(store, rules, rs)) && TotalsFit(TotalsOf(Below(store, rs), rules))
  }

  /** A validation cache may hold these chunks. */
  ghost predicate Fits(rules: ManifestRules, chunks: set<ManifestRef>) {
    && |chunks| <= MAX_MANIFEST_VALIDATION_CHUNKS
    && Sum(chunks, rules.weight) <= MAX_MANIFEST_VALIDATION_CACHE_BYTES
  }

  /** What any cache may ask of a snapshot. */
  ghost predicate Genuine(store: Store, rules: ManifestRules, s: SnapshotRoot) {
    s.Header? && Orderly(store, rules, RootsOf(s)) && s.totals == TotalsOf(Below(store, RootsOf(s)), rules)
  }

  /** What a fresh cache asks of a snapshot. */
  ghost predicate Acceptable(store: Store, rules: ManifestRules, s: SnapshotRoot) {
    Genuine(store, rules, s) && Fits(rules, ChunksOf(store, RootsOf(s)))
  }

  /** A cache that is full after a snapshot is dropped. */
  ghost function Retained(rules: ManifestRules, chunks: set<ManifestRef>): set<ManifestRef> {
    if || |chunks| >= MAX_MANIFEST_VALIDATION_CHUNKS
       || Sum(chunks, rules.weight) >= MAX_MANIFEST_VALIDATION_CACHE_BYTES
    then {}
    else chunks
  }

  /** The chunks cached once all these snapshots are accepted. */
  ghost function SharedCache(store: Store, rules: ManifestRules, snapshots: seq<SnapshotRoot>): set<ManifestRef> {
    if snapshots == [] then {}
    else
      var last := |snapshots| - 1;
      Retained(rules, SharedCache(store, rules, snapshots[..last]) + ChunksOf(store, RootsOf(snapshots[last])))
  }

  /** There is room for the chunks of `s` beside what the snapshots before it left in the cache. */
  ghost predicate HasRoom(store: Store, rules: ManifestRules, before: seq<SnapshotRoot>, s: SnapshotRoot) {
    Fits(rules, SharedCache(store, rules, before) + ChunksOf(store, RootsOf(s)))
  }

  /** Each snapshot finds room beside what the snapshots before it left in the cache. */
  ghost predicate NoOverflow(store: Store, rules: ManifestRules, snapshots: seq<SnapshotRoot>) {
    snapshots == [] ||
    var last := |snapshots| - 1;
    NoOverflow(store, rules, snapshots[..last]) && HasRoom(store, rules, snapshots[..last], snapshots[last])
  }

  lemma OneMoreCached(store: Store, rules: ManifestRules, snapshots: seq<SnapshotRoot>, i: nat)
    requires i < |snapshots|
    ensures SharedCache(store, rules, snapshots[..i + 1])
         == Retained(rules, SharedCache(store, rules, snapshots[..i]) + ChunksOf(store, RootsOf(snapshots[i])))
    ensures NoOverflow(store, rules, snapshots[..i + 1])
       <==> NoOverflow(store, rules, snapshots[..i]) && HasRoom(store, rules, snapshots[..i], snapshots[i])
  {
    OneMore(snapshots, i);
  }

  /** Room beside other chunks is room enough for a fresh cache. */
  lemma ValidatedMeans(store: Store, rules: ManifestRules, before: seq<SnapshotRoot>, s: SnapshotRoot)
    ensures Genuine(store, rules, s) && HasRoom(store, rules, before, s)
       <==> Acceptable(store, rules, s) && HasRoom(store, rules, before, s)
    ensures Acceptable(store, rules, s) ==> s.Header? && AllExpand(store, RootsOf(s), MAX_LEVELS)
  {
    hide Fits, AllFine, AllExpand, Ordered;
    var chunks := ChunksOf(store, RootsOf(s));
    if Fits(rules, SharedCache(store, rules, before) + chunks) {
      SmallerFits(rules, chunks, SharedCache(store, rules, before) + chunks);
    }
  }

  lemma {:induction false} RootsExpand(store: Store, rules: ManifestRules, snapshots: seq<SnapshotRoot>)
    requires forall s | s in snapshots :: Acceptable(store, rules, s)
    ensures AllExpand(store, AllRoots(snapshots), MAX_LEVELS)
  {
    hide Fits, AllFine, KeysBelow, Expands, Ordered, TotalsOf;
    if snapshots != [] {
      RootsExpand(store, rules, snapshots[..|snapshots| - 1]);
      assert snapshots[|snapshots| - 1] in snapshots;
    }
  }

  lemma SmallerFits(rules: ManifestRules, part: set<ManifestRef>, whole: set<ManifestRef>)
    requires part <= whole && Fits(rules, whole)
    ensures Fits(rules, part)
  {
    SmallerCount(part, whole);
    SumSplit(whole, part, rules.weight);
  }

  lemma SmallerCount<T>(part: set<T>, whole: set<T>)
    requires part <= whole
    ensures |part| <= |whole|
  {
    assert whole == part + (whole - part);
  }

  // ---------------------------------------------------------------- rows of trees

  lemma KeysConcat(a: seq<Entry>, b: seq<Entry>, key: string -> string)
    ensures Keys(a + b, key) == Keys(a, key) + Keys(b, key)
  {
  }

  lemma PlusLaws(a: Totals, b: Totals, c: Totals)
    ensures Plus(NOTHING, a) == a
    ensures Plus(Plus(a, b), c) == Plus(a, Plus(b, c))
  {
  }

  lemma {:induction false} TotalsConcat(a: seq<Entry>, b: seq<Entry>, rules: ManifestRules)
    ensures TotalsOf(a + b, rules) == Plus(TotalsOf(a, rules), TotalsOf(b, rules))
  {
    hide TotalsOfOne, Plus;
    if a == [] {
      assert a + b == b;
      PlusLaws(TotalsOf(b, rules), NOTHING, NOTHING);
    } else {
      TotalsConcat(a[1..], b, rules);
      PlusLaws(TotalsOfOne(a[0], rules), TotalsOf(a[1..], rules), TotalsOf(b, rules));
      assert (a + b)[1..] == a[1..] + b;
    }
  }

  lemma SpanConcat(a: seq<Entry>, b: seq<Entry>, rules: ManifestRules)
    requires a != [] && b != []
    ensures SpanOf(a + b, rules) == Joined(SpanOf(a, rules), SpanOf(b, rules))
  {
    TotalsConcat(a, b, rules);
  }

  lemma BelowConcat(store: Store, rules: ManifestRules, a: seq<ManifestRef>, b: seq<ManifestRef>)
    ensures Below(store, a + b) == Below(store, a) + Below(store, b)
    ensures KeysBelow(store, rules, a + b) == KeysBelow(store, rules, a) + KeysBelow(store, rules, b)
    ensures TotalsOf(Below(store, a + b), rules)
      == Plus(TotalsOf(Below(store, a), rules), TotalsOf(Below(store, b), rules))
  {
    ExpansionConcat(store, a, b, MAX_LEVELS);
    KeysConcat(Below(store, a), Below(store, b), rules.key);
    TotalsConcat(Below(store, a), Below(store, b), rules);
  }

  lemma FineConcat(store: Store, rules: ManifestRules, a: seq<ManifestRef>, b: seq<ManifestRef>)
    ensures AllFine(store, rules, a + b) <==> AllFine(store, rules, a) && AllFine(store, rules, b)
  {
    hide ChunkFine;
    AllVisitsConcat(store, a, b, MAX_LEVELS);
    var v, w := AllVisits(store, a, MAX_LEVELS), AllVisits(store, b, MAX_LEVELS);
    assert forall c | c in v :: c in v + w;
    assert forall c | c in w :: c in v + w;
  }

  lemma OrderlyParts(store: Store, rules: ManifestRules, a: seq<ManifestRef>, b: seq<ManifestRef>)
    requires Orderly(store, rules, a + b)
    ensures Orderly(store, rules, a) && Orderly(store, rules, b)
    ensures var k, l := KeysBelow(store, rules, a), KeysBelow(store, rules, b);
      k != [] && l != [] ==> Follows(k[|k| - 1], l[0])
    ensures TotalsFit(Plus(TotalsOf(Below(store, a), rules), TotalsOf(Below(store, b), rules)))
  {
    hide KeysBelow, AllFine, Expands, Ordered, TotalsOf, Below;
    BelowConcat(store, rules, a, b);
    FineConcat(store, rules, a, b);
    OrderedParts(KeysBelow(store, rules, a), KeysBelow(store, rules, b));
    assert forall r | r in a :: r in a + b;
    assert forall r | r in b :: r in a + b;
  }

  // ---------------------------------------------------------------- single trees

  /** The levels below the root of the tree at `r`; it is readable throughout. */
  ghost predicate HasHeight(store: Store, r: ManifestRef, height: nat) {
    Expands(store, r, height + 1) && !Expands(store, r, height)
  }

  lemma RootIsMet(store: Store, r: ManifestRef, depth: nat)
    requires depth > 0
    ensures r in AllVisits(store, [r], depth)
  {
    assert Visits(store, r, depth)[0] == r;
    assert AllVisits(store, [r], depth) == Visits(store, r, depth) + AllVisits(store, [], depth);
    assert AllVisits(store, [r], depth)[0] == r;
  }

  lemma LeafWalk(store: Store, r: ManifestRef)
    requires Readable(store, r) && r.kind.Leaf?
    ensures AllVisits(store, [r], MAX_LEVELS) == [r] && Below(store, [r]) == Entries(store, r)
    ensures HasHeight(store, r, 0) && ChunksOf(store, [r]) == {r}
  {
    assert Children(store, r) == [];
    assert Expands(store, r, 1) && !Expands(store, r, 0);
    assert Visits(store, r, MAX_LEVELS) == [r] + AllVisits(store, [], MAX_LEVELS - 1);
    assert AllVisits(store, [r], MAX_LEVELS) == [r];
    assert Flatten(store, [r]) == Entries(store, r);
  }

  /** The walk below a node is the node, then the walk below its children. */
  lemma NodeWalk(store: Store, r: ManifestRef, depth: nat)
    requires Readable(store, r) && r.kind.Node? && depth < MAX_LEVELS && AllExpand(store, Children(store, r), depth)
    ensures Expands(store, r, depth + 1) && AllExpand(store, Children(store, r), MAX_LEVELS)
    ensures AllVisits(store, [r], MAX_LEVELS) == [r] + AllVisits(store, Children(store, r), MAX_LEVELS)
    ensures Below(store, [r]) == Below(store, Children(store, r))
    ensures ChunksOf(store, [r]) == {r} + ChunksOf(store, Children(store, r))
  {
    var children := Children(store, r);
    DepthIrrelevant(store, children, depth, MAX_LEVELS - 1);
    DepthIrrelevant(store, children, depth, MAX_LEVELS);
    var below := AllVisits(store, children, MAX_LEVELS);
    assert Visits(store, r, MAX_LEVELS) == [r] + below;
    assert AllVisits(store, [r], MAX_LEVELS) == [r] + below;
    assert Flatten(store, [r] + below) == Entries(store, r) + Flatten(store, below);
    assert Entries(store, r) == [];
  }

  lemma NodeFine(store: Store, rules: ManifestRules, r: ManifestRef, depth: nat)
    requires Readable(store, r) && r.kind.Node? && depth < MAX_LEVELS && AllExpand(store, Children(store, r), depth)
    ensures AllFine(store, rules, [r]) <==> ChunkFine(store, rules, r) && AllFine(store, rules, Children(store, r))
    ensures Below(store, [r]) == Below(store, Children(store, r))
  {
    hide ChunkFine, AllVisits;
    NodeWalk(store, r, depth);
    var below := AllVisits(store, Children(store, r), MAX_LEVELS);
    assert r in [r] + below;
    assert forall c | c in below :: c in [r] + below;
  }

  lemma NodeParts(store: Store, rules: ManifestRules, r: ManifestRef)
    requires Orderly(store, rules, [r]) && r.kind.Node?
    ensures Readable(store, r) && ChunkFine(store, rules, r) && Orderly(store, rules, Children(store, r))
    ensures ChunksOf(store, [r]) == {r} + ChunksOf(store, Children(store, r))
    ensures AllVisits(store, [r], MAX_LEVELS) == [r] + AllVisits(store, Children(store, r), MAX_LEVELS)
  {
    hide AllFine, ChunkFine, Below, Ordered, TotalsOf;
    assert r in [r] && Expands(store, r, MAX_LEVELS);
    NodeWalk(store, r, MAX_LEVELS - 1);
    NodeFine(store, rules, r, MAX_LEVELS - 1);
  }

  lemma RootIsFine(store: Store, rules: ManifestRules, r: ManifestRef)
    requires Orderly(store, rules, [r])
    ensures ChunkFine(store, rules, r) && Expands(store, r, MAX_LEVELS)
  {
    hide ChunkFine, Ordered, TotalsOf, Expands;
    RootIsMet(store, r, MAX_LEVELS);
    assert r in [r];
  }

  // ---------------------------------------------------------------- what ordered keys exclude

  ghost predicate FirstChildrenFollow(store: Store, visits: seq<ManifestRef>) {
    forall i | 0 <= i < |visits| && Children(store, visits[i]) != [] ::
      i + 1 < |visits| && visits[i + 1] == Children(store, visits[i])[0]
  }

  lemma {:induction false} WalkDescends(store: Store, rs: seq<ManifestRef>, depth: nat)
    requires AllExpand(store, rs, depth)
    ensures FirstChildrenFollow(store, AllVisits(store, rs, depth))
    ensures rs != [] ==> AllVisits(store, rs, depth) != [] && AllVisits(store, rs, depth)[0] == rs[0]
    decreases depth, |rs|
  {
    if rs != [] {
      var r := rs[0];
      assert Expands(store, r, depth);
      WalkDescends(store, Children(store, r), depth - 1);
      WalkDescends(store, rs[1..], depth);
      FollowConcat(store, r, AllVisits(store, Children(store, r), depth - 1), AllVisits(store, rs[1..], depth));
    }
  }

  lemma FollowConcat(store: Store, r: ManifestRef, below: seq<ManifestRef>, rest: seq<ManifestRef>)
    requires FirstChildrenFollow(store, below) && FirstChildrenFollow(store, rest)
    requires Children(store, r) != [] ==> below != [] && below[0] == Children(store, r)[0]
    ensures FirstChildrenFollow(store, ([r] + below) + rest)
  {
    var all := ([r] + below) + rest;
    forall i | 0 <= i < |all| && Children(store, all[i]) != []
      ensures i + 1 < |all| && all[i + 1] == Children(store, all[i])[0]
    {
      if 0 < i <= |below| {
        assert all[i] == below[i - 1];
      } else if i > |below| {
        assert all[i] == rest[i - 1 - |below|];
      }
    }
  }

  /** A leaf met twice puts its first key into the expansion twice. */
  lemma RepeatedLeaf(store: Store, visits: seq<ManifestRef>, key: string -> string, i: nat, j: nat)
    requires i < j < |visits| && visits[i] == visits[j] && Entries(store, visits[i]) != []
    ensures !Increasing(Keys(Flatten(store, visits), key))
  {
    var a, b, c := visits[..i], visits[i..j], visits[j..];
    assert visits == a + (b + c);
    FlattenConcat(store, a, b + c);
    FlattenConcat(store, b, c);
    var x, y, z := Flatten(store, a), Flatten(store, b), Flatten(store, c);
    assert Flatten(store, visits) == x + (y + z);
    assert y[0] == Entries(store, visits[i])[0] && z[0] == Entries(store, visits[j])[0];
    var all := x + (y + z);
    assert all[|x|] == y[0] && all[|x| + |y|] == z[0];
    if Increasing(Keys(all, key)) {
      IncreasingMeansDistinct(Keys(all, key), |x|, |x| + |y|);
    }
  }

  lemma {:induction false} RepeatedChunk(store: Store, visits: seq<ManifestRef>, key: string -> string, i: nat, j: nat)
    requires FirstChildrenFollow(store, visits)
    requires forall c | c in visits :: Children(store, c) != [] || Entries(store, c) != []
    requires i < j < |visits| && visits[i] == visits[j]
    ensures !Increasing(Keys(Flatten(store, visits), key))
    decreases |visits| - j
  {
    if Children(store, visits[i]) == [] {
      assert visits[i] in visits;
      RepeatedLeaf(store, visits, key, i, j);
    } else {
      RepeatedChunk(store, visits, key, i + 1, j + 1);
    }
  }

  lemma FineIsNotEmpty(store: Store, rules: ManifestRules, c: ManifestRef)
    requires ChunkFine(store, rules, c)
    ensures Children(store, c) != [] || Entries(store, c) != []
  {
    hide LinksFine, EdgesIncrease, ClosingShape, Below;
  }

  /** Keys in order imply that the walk meets no chunk twice. */
  lemma OrderedMeansDistinct(store: Store, rules: ManifestRules, rs: seq<ManifestRef>)
    requires Orderly(store, rules, rs)
    ensures Distinct(AllVisits(store, rs, MAX_LEVELS))
  {
    hide ChunkFine, AllVisits, Expands, TotalsOf;
    var visits := AllVisits(store, rs, MAX_LEVELS);
    WalkDescends(store, rs, MAX_LEVELS);
    forall c | c in visits
      ensures Children(store, c) != [] || Entries(store, c) != []
    {
      FineIsNotEmpty(store, rules, c);
    }
    forall i, j | 0 <= i < j < |visits|
      ensures visits[i] != visits[j]
    {
      if visits[i] == visits[j] {
        RepeatedChunk(store, visits, rules.key, i, j);
      }
    }
  }

  lemma PartsAreDisjoint(store: Store, rules: ManifestRules, a: seq<ManifestRef>, b: seq<ManifestRef>)
    requires Orderly(store, rules, a + b)
    ensures ChunksOf(store, a) !! ChunksOf(store, b)
  {
    hide Orderly, AllVisits;
    OrderedMeansDistinct(store, rules, a + b);
    AllVisitsConcat(store, a, b, MAX_LEVELS);
    DistinctParts(AllVisits(store, a, MAX_LEVELS), AllVisits(store, b, MAX_LEVELS));
  }

  lemma NodeIsNotBelow(store: Store, rules: ManifestRules, r: ManifestRef)
    requires Orderly(store, rules, [r]) && r.kind.Node?
    ensures r !in ChunksOf(store, Children(store, r))
  {
    hide Orderly, AllVisits, ChunkFine;
    OrderedMeansDistinct(store, rules, [r]);
    NodeParts(store, rules, r);
    DistinctParts([r], AllVisits(store, Children(store, r), MAX_LEVELS));
    assert r in [r];
  }
}
