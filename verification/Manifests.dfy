/**
 Manifest chunks as an immutable content-addressed store, and what a chunk stands for.

 A digest is the number its 32 bytes spell. The kind of a reference decides how the
 stored bytes are decoded, so a chunk is readable only if it is stored under its own kind; a
 missing, misfiled, root-kinded or oversized chunk is unreadable.
 */
module Manifests {
  import opened Sums

  type Digest = nat

  const U64_MAX: nat := 0xFFFF_FFFF_FFFF_FFFF

  datatype ChunkKind = Root | Node | Leaf

  datatype ManifestRef = ManifestRef(kind: ChunkKind, id: Digest)

  /** Seconds since 1970, perhaps before it; the fraction of a second plays no part. */
  type Instant = int

  datatype Entry = Entry(path: string, objectId: Digest, size: nat, modified: Instant)

  /** How many entries there are, their sizes and the lengths of their paths, added up. */
  datatype Totals = Totals(count: nat, size: nat, pathBytes: nat)

  /** A child of a node, listed under the first byte of its keys after the prefix of the node. */
  datatype Link = Link(edge: char, child: ManifestRef, totals: Totals)

  datatype Chunk = NodeChunk(prefix: string, links: seq<Link>) | LeafChunk(prefix: string, entries: seq<Entry>)

  type Store = map<ManifestRef, Chunk>

  const MAX_LEAF_ENTRIES: nat := 16_384
  const MAX_NODE_CHILDREN: nat := 256

  /** A chunk that decodes: it is stored under its own kind and lists no more than it may. */
  predicate Readable(store: Store, r: ManifestRef) {
    r in store &&
    match r.kind
    case Root => false
    case Node => store[r].NodeChunk? && |store[r].links| <= MAX_NODE_CHILDREN
    case Leaf => store[r].LeafChunk? && |store[r].entries| <= MAX_LEAF_ENTRIES
  }

  function Targets(links: seq<Link>): (rs: seq<ManifestRef>)
    ensures |rs| == |links| && forall i | 0 <= i < |rs| :: rs[i] == links[i].child
  {
    seq(|links|, i requires 0 <= i < |links| => links[i].child)
  }

  function Children(store: Store, r: ManifestRef): seq<ManifestRef> {
    if Readable(store, r) && r.kind.Node? then Targets(store[r].links) else []
  }

  function Entries(store: Store, r: ManifestRef): seq<Entry> {
    if Readable(store, r) && r.kind.Leaf? then store[r].entries else []
  }

  // ---------------------------------------------------------------- naive expansion

  /** The tree below `r` is readable everywhere and at most `depth` levels high. */
  ghost predicate Expands(store: Store, r: ManifestRef, depth: nat)
    decreases depth
  {
    depth > 0 && Readable(store, r) &&
    forall k | k in Children(store, r) :: Expands(store, k, depth - 1)
  }

  ghost predicate AllExpand(store: Store, rs: seq<ManifestRef>, depth: nat) {
    forall r | r in rs :: Expands(store, r, depth)
  }

  /** Every chunk met when the tree below `r` is walked without sharing, in order. */
  function Visits(store: Store, r: ManifestRef, depth: nat): seq<ManifestRef>
    decreases depth, 0
  {
    if depth == 0 then [] else [r] + AllVisits(store, Children(store, r), depth - 1)
  }

  function AllVisits(store: Store, rs: seq<ManifestRef>, depth: nat): seq<ManifestRef>
    decreases depth, |rs|
  {
    if rs == [] then [] else Visits(store, rs[0], depth) + AllVisits(store, rs[1..], depth)
  }

  function Flatten(store: Store, visits: seq<ManifestRef>): seq<Entry> {
    if visits == [] then [] else Entries(store, visits[0]) + Flatten(store, visits[1..])
  }

  /** The fully expanded manifests of `rs`, one after the other. */
  function Expansion(store: Store, rs: seq<ManifestRef>, depth: nat): seq<Entry> {
    Flatten(store, AllVisits(store, rs, depth))
  }

  // ---------------------------------------------------------------- occurrence counts

  function Occurrences(entries: seq<Entry>, o: Digest): nat {
    if entries == [] then 0
    else (if entries[0].objectId == o then 1 else 0) + Occurrences(entries[1..], o)
  }

  /** How often `k` is listed as a child of `p`. */
  function EdgeCount(store: Store, p: ManifestRef, k: ManifestRef): nat {
    multiset(Children(store, p))[k]
  }

  function EdgesTo(store: Store, k: ManifestRef): ManifestRef -> nat {
    p => EdgeCount(store, p, k)
  }

  function ObjectIn(store: Store, o: Digest): ManifestRef -> nat {
    c => Occurrences(Entries(store, c), o)
  }

  lemma {:induction false} OccurrencesConcat(a: seq<Entry>, b: seq<Entry>, o: Digest)
    ensures Occurrences(a + b, o) == Occurrences(a, o) + Occurrences(b, o)
  {
    if a == [] {
      assert a + b == b;
    } else {
      OccurrencesConcat(a[1..], b, o);
      assert (a + b)[1..] == a[1..] + b;
    }
  }

  lemma {:induction false} OccurrencesPositive(entries: seq<Entry>, o: Digest)
    ensures Occurrences(entries, o) > 0 <==> exists e :: e in entries && e.objectId == o
  {
    if entries != [] {
      OccurrencesPositive(entries[1..], o);
      if Occurrences(entries, o) > 0 {
        if entries[0].objectId == o {
          assert entries[0] in entries;
        } else {
          var e :| e in entries[1..] && e.objectId == o;
          assert e in entries;
        }
      }
      if e :| e in entries && e.objectId == o {
        assert e == entries[0] || e in entries[1..];
      }
    }
  }

  lemma {:induction false} AllVisitsConcat(store: Store, a: seq<ManifestRef>, b: seq<ManifestRef>, depth: nat)
    ensures AllVisits(store, a + b, depth) == AllVisits(store, a, depth) + AllVisits(store, b, depth)
  {
    if a == [] {
      assert a + b == b;
    } else {
      AllVisitsConcat(store, a[1..], b, depth);
      assert (a + b)[1..] == a[1..] + b;
    }
  }

  /** More levels than needed change nothing. */
  lemma {:induction false} DepthIrrelevant(store: Store, rs: seq<ManifestRef>, d: nat, e: nat)
    requires AllExpand(store, rs, d) && d <= e
    ensures AllExpand(store, rs, e)
    ensures AllVisits(store, rs, e) == AllVisits(store, rs, d)
    decreases d, |rs|
  {
    if rs != [] {
      var r := rs[0];
      assert Expands(store, r, d);
      DepthIrrelevant(store, Children(store, r), d - 1, e - 1);
      DepthIrrelevant(store, rs[1..], d, e);
      assert Expands(store, r, e);
      assert Visits(store, r, d) == Visits(store, r, e);
      forall x | x in rs
        ensures Expands(store, x, e)
      {
        assert x == r || x in rs[1..];
      }
    }
  }

  /** Any two sufficient depths give the same walk, so the expansion is well defined. */
  lemma AnyDepth(store: Store, rs: seq<ManifestRef>, d: nat, e: nat)
    requires AllExpand(store, rs, d) && AllExpand(store, rs, e)
    ensures AllVisits(store, rs, d) == AllVisits(store, rs, e)
    ensures Expansion(store, rs, d) == Expansion(store, rs, e)
  {
    if d <= e {
      DepthIrrelevant(store, rs, d, e);
    } else {
      DepthIrrelevant(store, rs, e, d);
    }
  }

  lemma {:induction false} OccurrencesFlatten(store: Store, visits: seq<ManifestRef>, o: Digest)
    ensures Occurrences(Flatten(store, visits), o) == SumSeq(visits, ObjectIn(store, o))
  {
    if visits != [] {
      OccurrencesConcat(Entries(store, visits[0]), Flatten(store, visits[1..]), o);
      OccurrencesFlatten(store, visits[1..], o);
    }
  }

  lemma {:induction false} FlattenConcat(store: Store, a: seq<ManifestRef>, b: seq<ManifestRef>)
    ensures Flatten(store, a + b) == Flatten(store, a) + Flatten(store, b)
  {
    if a == [] {
      assert a + b == b;
    } else {
      FlattenConcat(store, a[1..], b);
      assert (a + b)[1..] == a[1..] + b;
    }
  }

  lemma ExpansionConcat(store: Store, a: seq<ManifestRef>, b: seq<ManifestRef>, depth: nat)
    ensures Expansion(store, a + b, depth) == Expansion(store, a, depth) + Expansion(store, b, depth)
  {
    AllVisitsConcat(store, a, b, depth);
    FlattenConcat(store, AllVisits(store, a, depth), AllVisits(store, b, depth));
  }

  lemma {:induction false} FlattenMembers(store: Store, visits: seq<ManifestRef>, e: Entry)
    ensures e in Flatten(store, visits) <==> exists c :: c in visits && e in Entries(store, c)
  {
    if visits != [] {
      FlattenMembers(store, visits[1..], e);
      if e in Entries(store, visits[0]) {
        assert visits[0] in visits;
      }
      if c :| c in visits && e in Entries(store, c) {
        assert c == visits[0] || c in visits[1..];
      }
    }
  }

  // ---------------------------------------------------------------- last-step decomposition

  /** A chunk is met once per root naming it and once per listing in a parent that is met. */
  lemma {:induction false} LastStep(store: Store, rs: seq<ManifestRef>, depth: nat, t: ManifestRef)
    requires AllExpand(store, rs, depth)
    ensures multiset(AllVisits(store, rs, depth))[t]
         == multiset(rs)[t] + SumSeq(AllVisits(store, rs, depth), EdgesTo(store, t))
    decreases depth, |rs|
  {
    if rs != [] {
      var r, rest := rs[0], rs[1..];
      assert rs == [r] + rest;
      assert Expands(store, r, depth);
      var below := AllVisits(store, Children(store, r), depth - 1);
      LastStep(store, Children(store, r), depth - 1, t);
      LastStep(store, rest, depth, t);
      SumSeqConcat([r] + below, AllVisits(store, rest, depth), EdgesTo(store, t));
      SumSeqConcat([r], below, EdgesTo(store, t));
      assert SumSeq([r], EdgesTo(store, t)) == EdgeCount(store, r, t);
    }
  }

  /** The same with the visits grouped by parent: multiplicities solve the flow equations. */
  lemma FlowEquation(store: Store, rs: seq<ManifestRef>, depth: nat, universe: set<ManifestRef>, t: ManifestRef)
    requires AllExpand(store, rs, depth)
    requires forall c | c in AllVisits(store, rs, depth) :: c in universe
    ensures multiset(AllVisits(store, rs, depth))[t]
         == multiset(rs)[t] + Sum(universe, Weighted(AllVisits(store, rs, depth), EdgesTo(store, t)))
  {
    LastStep(store, rs, depth, t);
    SumSeqByElement(AllVisits(store, rs, depth), universe, EdgesTo(store, t));
  }

  lemma ObjectEquation(store: Store, rs: seq<ManifestRef>, depth: nat, universe: set<ManifestRef>, o: Digest)
    requires forall c | c in AllVisits(store, rs, depth) :: c in universe
    ensures Occurrences(Expansion(store, rs, depth), o)
         == Sum(universe, Weighted(AllVisits(store, rs, depth), ObjectIn(store, o)))
  {
    OccurrencesFlatten(store, AllVisits(store, rs, depth), o);
    SumSeqByElement(AllVisits(store, rs, depth), universe, ObjectIn(store, o));
  }

  // ---------------------------------------------------------------- closure

  /** `s` holds readable chunks only, and the children of each. */
  ghost predicate Closed(store: Store, s: set<ManifestRef>) {
    forall c | c in s :: Readable(store, c) && forall k | k in Children(store, c) :: k in s
  }

  lemma {:induction false} VisitsWithin(store: Store, rs: seq<ManifestRef>, depth: nat, s: set<ManifestRef>)
    requires Closed(store, s)
    requires forall r | r in rs :: r in s
    ensures forall c | c in AllVisits(store, rs, depth) :: c in s
    decreases depth, |rs|
  {
    if rs != [] && depth > 0 {
      VisitsWithin(store, Children(store, rs[0]), depth - 1, s);
    }
    if rs != [] {
      VisitsWithin(store, rs[1..], depth, s);
    }
  }

  lemma {:induction false} VisitsClosed(store: Store, rs: seq<ManifestRef>, depth: nat)
    requires AllExpand(store, rs, depth)
    ensures forall r | r in rs :: r in AllVisits(store, rs, depth)
    ensures Closed(store, set c | c in AllVisits(store, rs, depth))
    decreases depth, |rs|
  {
    if rs != [] {
      assert Expands(store, rs[0], depth);
      VisitsClosed(store, Children(store, rs[0]), depth - 1);
      VisitsClosed(store, rs[1..], depth);
      var all := AllVisits(store, rs, depth);
      var below := AllVisits(store, Children(store, rs[0]), depth - 1);
      var rest := AllVisits(store, rs[1..], depth);
      assert Visits(store, rs[0], depth) == [rs[0]] + below;
      assert all == ([rs[0]] + below) + rest;
      forall c | c in all
        ensures Readable(store, c) && forall k | k in Children(store, c) :: k in all
      {
        assert c == rs[0] || c in below || c in rest;
        if c in below {
          assert c in (set x | x in below);
        } else if c in rest {
          assert c in (set x | x in rest);
        }
      }
    }
  }

  /** `s` is made of chunks the roots lead to: it is inside every closed set holding the roots. */
  ghost predicate OnlyReachable(store: Store, roots: seq<ManifestRef>, s: set<ManifestRef>) {
    forall t | Closed(store, t) && (forall r | r in roots :: r in t) :: s <= t
  }

  lemma ReachableIsVisited(store: Store, roots: seq<ManifestRef>, depth: nat, s: set<ManifestRef>)
    requires AllExpand(store, roots, depth)
    requires OnlyReachable(store, roots, s)
    ensures forall c | c in s :: c in AllVisits(store, roots, depth) && Readable(store, c)
  {
    VisitsClosed(store, roots, depth);
    var all := set c | c in AllVisits(store, roots, depth);
    assert s <= all;
  }

  lemma VisitedEntries(store: Store, roots: seq<ManifestRef>, depth: nat, c: ManifestRef)
    requires c in AllVisits(store, roots, depth)
    ensures forall e | e in Entries(store, c) :: e in Expansion(store, roots, depth)
  {
    forall e | e in Entries(store, c)
      ensures e in Expansion(store, roots, depth)
    {
      FlattenMembers(store, AllVisits(store, roots, depth), e);
    }
  }

  /** `s` is closed, holds the roots and nothing unreachable: it is the discovered graph. */
  ghost predicate Graph(store: Store, roots: seq<ManifestRef>, s: set<ManifestRef>) {
    Closed(store, s) && (forall r | r in roots :: r in s) && OnlyReachable(store, roots, s)
  }

  lemma VisitsAreTheGraph(store: Store, roots: seq<ManifestRef>, depth: nat, s: set<ManifestRef>)
    requires Graph(store, roots, s) && AllExpand(store, roots, depth)
    ensures s == set c | c in AllVisits(store, roots, depth)
  {
    VisitsWithin(store, roots, depth, s);
    ReachableIsVisited(store, roots, depth, s);
  }

  lemma {:induction false} VisitedExpands(store: Store, rs: seq<ManifestRef>, depth: nat, c: ManifestRef)
    requires AllExpand(store, rs, depth) && c in AllVisits(store, rs, depth)
    ensures Expands(store, c, depth)
    decreases depth, |rs|
  {
    var r := rs[0];
    assert Expands(store, r, depth);
    if c in AllVisits(store, Children(store, r), depth - 1) {
      VisitedExpands(store, Children(store, r), depth - 1, c);
      DepthIrrelevant(store, [c], depth - 1, depth);
      assert c in [c];
    } else if c != r {
      VisitedExpands(store, rs[1..], depth, c);
    }
  }
}
