/**
 Rebuilding `object_refs` from snapshot manifests (db.rs). Snapshots share manifest chunks,
 so the rebuild discovers the chunk graph once, then pushes root multiplicities through it
 in batches of chunks none of whose parents is left. The specification is the naive one:
 expand every manifest without sharing and count.
 */
module RebuildAggregation {
  import opened Outcomes
  import opened Sequences
  import opened Sums
  import opened Manifests
  import opened ObjectRefs

  datatype ChunkRow = ChunkRow(discovered: bool, processed: bool, incoming: nat, multiplicity: nat)

  datatype LeafRow = LeafRow(size: nat, occurrences: nat)

  const READY_LIMIT: nat := 256

  // ---------------------------------------------------------------- specification

  /** How often the unshared walk meets `t`. */
  ghost function Multiplicity(store: Store, roots: seq<ManifestRef>, depth: nat, t: ManifestRef): nat {
    multiset(AllVisits(store, roots, depth))[t]
  }

  /** Everything a rebuild needs: finite readable trees, one size per object, 63-bit totals. */
  ghost predicate Rebuildable(store: Store, roots: seq<ManifestRef>, depth: nat) {
    && AllExpand(store, roots, depth)
    && SizesAgree(Expansion(store, roots, depth))
    && (forall e | e in Expansion(store, roots, depth) :: e.size <= I64_MAX)
    && (forall o :: Occurrences(Expansion(store, roots, depth), o) <= I64_MAX)
    && (forall t :: Multiplicity(store, roots, depth, t) <= I64_MAX)
  }

  ghost function InEdges(store: Store, parents: set<ManifestRef>, k: ManifestRef): nat {
    Sum(parents, EdgesTo(store, k))
  }

  /** References to `k` that flow in from `parents`. */
  ghost function Inflow(store: Store, roots: seq<ManifestRef>, depth: nat, parents: set<ManifestRef>,
                        k: ManifestRef): nat
  {
    Sum(parents, Weighted(AllVisits(store, roots, depth), EdgesTo(store, k)))
  }

  /** References to object `o` held by the chunks `cs`. */
  ghost function ObjectFlow(store: Store, roots: seq<ManifestRef>, depth: nat, cs: set<ManifestRef>, o: Digest): nat {
    Sum(cs, Weighted(AllVisits(store, roots, depth), ObjectIn(store, o)))
  }

  // ---------------------------------------------------------------- facts about the specification

  lemma {:induction false} SumMonotone(s: set<ManifestRef>, f: ManifestRef -> nat, g: ManifestRef -> nat)
    requires forall x | x in s :: f(x) <= g(x)
    ensures Sum(s, f) <= Sum(s, g)
    decreases s
  {
    if s != {} {
      var x :| x in s;
      SumRemove(s, x, f);
      SumRemove(s, x, g);
      SumMonotone(s - {x}, f, g);
    }
  }

  /** A visited chunk is met at least as often as it is listed in visited chunks. */
  lemma InEdgesWithinMultiplicity(store: Store, roots: seq<ManifestRef>, depth: nat, parents: set<ManifestRef>,
                                  k: ManifestRef)
    requires AllExpand(store, roots, depth)
    requires forall p | p in parents :: p in AllVisits(store, roots, depth)
    ensures InEdges(store, parents, k) <= Multiplicity(store, roots, depth, k)
  {
    var visits := AllVisits(store, roots, depth);
    var universe := set c | c in visits;
    FlowEquation(store, roots, depth, universe, k);
    SumSplit(universe, parents, Weighted(visits, EdgesTo(store, k)));
    forall p | p in parents
      ensures EdgesTo(store, k)(p) <= Weighted(visits, EdgesTo(store, k))(p)
    {
      TimesAtLeast(multiset(visits)[p], EdgeCount(store, p, k));
    }
    SumMonotone(parents, EdgesTo(store, k), Weighted(visits, EdgesTo(store, k)));
  }

  lemma TimesAtLeast(a: nat, b: nat)
    requires a > 0
    ensures b <= Times(a, b)
  {
  }

  /** One visited leaf never holds more occurrences of an object than the whole expansion. */
  lemma LeafWithinExpansion(store: Store, roots: seq<ManifestRef>, depth: nat, c: ManifestRef, o: Digest)
    requires c in AllVisits(store, roots, depth)
    ensures Occurrences(Entries(store, c), o) <= Occurrences(Expansion(store, roots, depth), o)
  {
    var visits := AllVisits(store, roots, depth);
    var universe := set x | x in visits;
    ObjectEquation(store, roots, depth, universe, o);
    SumRemove(universe, c, Weighted(visits, ObjectIn(store, o)));
    TimesAtLeast(multiset(visits)[c], Occurrences(Entries(store, c), o));
  }

  /** A nonempty set in which every chunk has a parent contradicts finite expansion. */
  lemma {:induction false} NoReadyMeansCycle(store: Store, stuck: set<ManifestRef>, d: nat) returns (c: ManifestRef)
    requires stuck != {}
    requires forall k | k in stuck :: InEdges(store, stuck, k) > 0
    ensures c in stuck && !Expands(store, c, d)
    decreases d
  {
    if d == 0 {
      c :| c in stuck;
    } else {
      var k := NoReadyMeansCycle(store, stuck, d - 1);
      SumZero(stuck, EdgesTo(store, k));
      c :| c in stuck && EdgesTo(store, k)(c) > 0;
      assert k in Children(store, c);
    }
  }

  /** Edges lead from earlier to later chunks only. */
  ghost predicate EdgesGoForward(store: Store, order: seq<ManifestRef>) {
    forall i, j | 0 <= j <= i < |order| :: order[j] !in Children(store, order[i])
  }

  /** A complete order with forward edges bounds every tree by what is left of the order. */
  lemma {:induction false} ForwardOrderExpands(store: Store, order: seq<ManifestRef>, i: nat)
    requires i <= |order|
    requires Closed(store, set c | c in order)
    requires EdgesGoForward(store, order)
    ensures forall j | i <= j < |order| :: Expands(store, order[j], |order| - i)
    decreases |order| - i
  {
    if i < |order| {
      ForwardOrderExpands(store, order, i + 1);
      forall j | i <= j < |order|
        ensures Expands(store, order[j], |order| - i)
      {
        assert order[j] in (set c | c in order);
        forall k | k in Children(store, order[j])
          ensures Expands(store, k, |order| - i - 1)
        {
          assert k in (set c | c in order);
          var n :| 0 <= n < |order| && order[n] == k;
          assert n > j;
        }
      }
    }
  }

  lemma {:induction false} DistinctCount<T>(s: seq<T>)
    requires Distinct(s)
    ensures |set x | x in s| == |s|
  {
    if s != [] {
      DistinctCount(s[1..]);
      assert (set x | x in s) == {s[0]} + (set x | x in s[1..]);
    }
  }

  // ---------------------------------------------------------------- what the tables hold

  /** Listings recorded so far: all those of `done`, and the prefix `kids` of those of `r`. */
  ghost function Listed(store: Store, done: set<ManifestRef>, r: ManifestRef, kids: seq<ManifestRef>,
                        p: ManifestRef, k: ManifestRef): nat {
    if p in done then EdgeCount(store, p, k) else if p == r then multiset(kids)[k] else 0
  }

  ghost function Held(store: Store, done: set<ManifestRef>, r: ManifestRef, entries: seq<Entry>,
                      c: ManifestRef): seq<Entry>
  {
    if c in done then Entries(store, c) else if c == r then entries else []
  }

  lemma PrefixCount(whole: seq<ManifestRef>, part: seq<ManifestRef>, k: ManifestRef)
    requires part <= whole
    ensures multiset(part)[k] <= multiset(whole)[k]
  {
    assert whole == part + whole[|part|..];
  }

  /** An incoming count that does not fit is a multiplicity that does not fit. */
  lemma IncomingFits(store: Store, roots: seq<ManifestRef>, depth: nat, keys: set<ManifestRef>, done: set<ManifestRef>,
                     r: ManifestRef, kids: seq<ManifestRef>, k: ManifestRef)
    requires Rebuildable(store, roots, depth)
    requires r !in done && kids <= Children(store, r)
    requires OnlyReachable(store, roots, keys) && done <= keys && r in keys
    ensures InEdges(store, done, k) + multiset(kids)[k] <= I64_MAX
  {
    ReachableIsVisited(store, roots, depth, keys);
    InEdgesWithinMultiplicity(store, roots, depth, done + {r}, k);
    SumAdd(done, r, EdgesTo(store, k));
    PrefixCount(Children(store, r), kids, k);
  }

  lemma EntryPrefixCount(whole: seq<Entry>, part: seq<Entry>, o: Digest)
    requires part <= whole
    ensures Occurrences(part, o) <= Occurrences(whole, o)
  {
    assert whole == part + whole[|part|..];
    OccurrencesConcat(part, whole[|part|..], o);
  }

  type ChunkTable = map<ManifestRef, ChunkRow>
  type EdgeTable = map<(ManifestRef, ManifestRef), nat>
  type LeafTable = map<(ManifestRef, Digest), LeafRow>

  ghost predicate EdgeRows(edges: EdgeTable, store: Store, done: set<ManifestRef>, r: ManifestRef,
                           kids: seq<ManifestRef>)
  {
    && (forall p: ManifestRef, k: ManifestRef :: (p, k) in edges <==> Listed(store, done, r, kids, p, k) > 0)
    && (forall p: ManifestRef, k: ManifestRef | (p, k) in edges :: edges[(p, k)] == Listed(store, done, r, kids, p, k))
  }

  ghost predicate RowsOf(leaves: LeafTable, c: ManifestRef, held: seq<Entry>) {
    && (forall o: Digest :: (c, o) in leaves <==> Occurrences(held, o) > 0)
    && (forall o: Digest | (c, o) in leaves ::
          leaves[(c, o)].occurrences == Occurrences(held, o) && leaves[(c, o)].size <= I64_MAX)
    && (forall e | e in held :: (c, e.objectId) in leaves && leaves[(c, e.objectId)].size == e.size)
  }

  ghost predicate LeafRows(leaves: LeafTable, store: Store, done: set<ManifestRef>, r: ManifestRef,
                           entries: seq<Entry>)
  {
    forall c :: RowsOf(leaves, c, Held(store, done, r, entries, c))
  }

  ghost predicate ChunkRows(chunks: ChunkTable, store: Store, roots: seq<ManifestRef>,
                            done: set<ManifestRef>, kids: seq<ManifestRef>) {
    forall k | k in chunks ::
      && !chunks[k].processed && (chunks[k].discovered <==> k in done)
      && chunks[k].multiplicity == multiset(roots)[k] <= I64_MAX
      && chunks[k].incoming == InEdges(store, done, k) + multiset(kids)[k] <= I64_MAX
  }

  /** The chunk table holds the roots and the children of `done`, and nothing unreachable. */
  ghost predicate Frontier(keys: set<ManifestRef>, store: Store, roots: seq<ManifestRef>, done: set<ManifestRef>) {
    && (forall q | q in roots :: q in keys)
    && done <= keys
    && (forall c | c in done :: Readable(store, c) && ChildrenIn(store, c, keys))
    && OnlyReachable(store, roots, keys)
  }

  ghost predicate ChildrenIn(store: Store, c: ManifestRef, keys: set<ManifestRef>) {
    forall k | k in Children(store, c) :: k in keys
  }

  lemma EdgeRecorded(edges: EdgeTable, store: Store, done: set<ManifestRef>, r: ManifestRef,
                     kids: seq<ManifestRef>, child: ManifestRef)
    requires r !in done && EdgeRows(edges, store, done, r, kids)
    ensures EdgeRows(edges[(r, child) := multiset(kids)[child] + 1], store, done, r, kids + [child])
    ensures (r, child) in edges <==> multiset(kids)[child] > 0
    ensures (r, child) in edges ==> edges[(r, child)] == multiset(kids)[child]
  {
    assert Listed(store, done, r, kids, r, child) == multiset(kids)[child];
  }

  lemma ChildRowAdded(chunks: ChunkTable, store: Store, roots: seq<ManifestRef>, done: set<ManifestRef>,
                      kids: seq<ManifestRef>, child: ManifestRef)
    requires ChunkRows(chunks, store, roots, done, kids) && Frontier(chunks.Keys, store, roots, done)
    requires child !in chunks && forall k | k in kids :: k in chunks
    ensures ChunkRows(chunks[child := ChunkRow(false, false, 0, 0)], store, roots, done, kids)
  {
    SumZero(done, EdgesTo(store, child));
    assert child !in multiset(kids);
  }

  lemma ExtendReachable(store: Store, roots: seq<ManifestRef>, s: set<ManifestRef>, r: ManifestRef, child: ManifestRef)
    requires OnlyReachable(store, roots, s) && r in s && child in Children(store, r)
    ensures OnlyReachable(store, roots, s + {child})
  {
  }

  /** A readable prefix of a reachable leaf fits whenever the expansion does. */
  lemma LeafFits(store: Store, roots: seq<ManifestRef>, depth: nat, s: set<ManifestRef>,
                 c: ManifestRef, part: seq<Entry>, o: Digest)
    requires Rebuildable(store, roots, depth)
    requires OnlyReachable(store, roots, s) && c in s && part <= Entries(store, c)
    ensures Occurrences(part, o) <= I64_MAX
    ensures SizesAgree(part)
    ensures forall e | e in part :: e in Expansion(store, roots, depth)
  {
    ReachableIsVisited(store, roots, depth, s);
    LeafWithinExpansion(store, roots, depth, c, o);
    EntryPrefixCount(Entries(store, c), part, o);
    VisitedEntries(store, roots, depth, c);
  }

  lemma OccurrencesAppend(before: seq<Entry>, e: Entry, o: Digest)
    ensures Occurrences(before + [e], o) == Occurrences(before, o) + (if e.objectId == o then 1 else 0)
  {
    OccurrencesConcat(before, [e], o);
  }

  lemma RowRecorded(leaves: LeafTable, r: ManifestRef, before: seq<Entry>, e: Entry)
    requires RowsOf(leaves, r, before)
    requires e.size <= I64_MAX
    requires (r, e.objectId) in leaves ==> leaves[(r, e.objectId)].size == e.size
    ensures RowsOf(leaves[(r, e.objectId) := LeafRow(e.size, Occurrences(before, e.objectId) + 1)], r, before + [e])
  {
    var next := leaves[(r, e.objectId) := LeafRow(e.size, Occurrences(before, e.objectId) + 1)];
    forall o: Digest
      ensures Occurrences(before + [e], o) == Occurrences(before, o) + (if e.objectId == o then 1 else 0)
    {
      OccurrencesAppend(before, e, o);
    }
    forall f | f in before + [e]
      ensures (r, f.objectId) in next && next[(r, f.objectId)].size == f.size
    {
      assert f == e || f in before;
    }
  }

  lemma LeafObjectRecorded(leaves: LeafTable, store: Store, done: set<ManifestRef>, r: ManifestRef,
                           before: seq<Entry>, e: Entry)
    requires r !in done && LeafRows(leaves, store, done, r, before)
    requires e.size <= I64_MAX
    requires (r, e.objectId) in leaves ==> leaves[(r, e.objectId)].size == e.size
    ensures LeafRows(leaves[(r, e.objectId) := LeafRow(e.size, Occurrences(before, e.objectId) + 1)], store, done, r,
      before + [e])
  {
    var next := leaves[(r, e.objectId) := LeafRow(e.size, Occurrences(before, e.objectId) + 1)];
    assert RowsOf(leaves, r, Held(store, done, r, before, r));
    RowRecorded(leaves, r, before, e);
    forall c
      ensures RowsOf(next, c, Held(store, done, r, before + [e], c))
    {
      assert RowsOf(leaves, c, Held(store, done, r, before, c));
    }
  }

  lemma ListingCounted(chunks: ChunkTable, store: Store, roots: seq<ManifestRef>, done: set<ManifestRef>,
                       kids: seq<ManifestRef>, child: ManifestRef)
    requires ChunkRows(chunks, store, roots, done, kids)
    requires child in chunks && chunks[child].incoming < I64_MAX
    ensures ChunkRows(chunks[child := chunks[child].(incoming := chunks[child].incoming + 1)], store, roots, done,
      kids + [child])
  {
  }

  lemma UnreadableReachable(store: Store, roots: seq<ManifestRef>, depth: nat, s: set<ManifestRef>, r: ManifestRef)
    requires OnlyReachable(store, roots, s) && r in s && !Readable(store, r)
    ensures !AllExpand(store, roots, depth)
  {
    if AllExpand(store, roots, depth) {
      ReachableIsVisited(store, roots, depth, s);
    }
  }

  /** All listings of `r` recorded: `r` joins the discovered chunks. */
  lemma EdgesComplete(edges: EdgeTable, store: Store, done: set<ManifestRef>, r: ManifestRef)
    requires r !in done && EdgeRows(edges, store, done, r, Children(store, r))
    ensures EdgeRows(edges, store, done + {r}, NOBODY, [])
  {
    forall p: ManifestRef, k: ManifestRef
      ensures Listed(store, done + {r}, NOBODY, [], p, k) == Listed(store, done, r, Children(store, r), p, k)
    {
    }
  }

  lemma ChildrenComplete(chunks: ChunkTable, store: Store, roots: seq<ManifestRef>, done: set<ManifestRef>,
                         r: ManifestRef)
    requires r !in done && r in chunks
    requires ChunkRows(chunks, store, roots, done, Children(store, r))
    ensures ChunkRows(chunks[r := chunks[r].(discovered := true)], store, roots, done + {r}, [])
  {
    forall k | k in chunks
      ensures InEdges(store, done + {r}, k) == InEdges(store, done, k) + multiset(Children(store, r))[k]
    {
      SumAdd(done, r, EdgesTo(store, k));
    }
    hide InEdges, Children;
  }

  lemma EntriesComplete(leaves: LeafTable, store: Store, done: set<ManifestRef>, r: ManifestRef)
    requires r !in done && LeafRows(leaves, store, done, r, Entries(store, r))
    ensures LeafRows(leaves, store, done + {r}, NOBODY, [])
  {
    forall c
      ensures RowsOf(leaves, c, Held(store, done + {r}, NOBODY, [], c))
    {
      assert RowsOf(leaves, c, Held(store, done, r, Entries(store, r), c));
    }
  }

  lemma NothingStarted(edges: EdgeTable, leaves: LeafTable, store: Store, done: set<ManifestRef>, r: ManifestRef)
    requires EdgeRows(edges, store, done, NOBODY, []) && LeafRows(leaves, store, done, NOBODY, [])
    ensures EdgeRows(edges, store, done, r, []) && LeafRows(leaves, store, done, r, [])
  {
    forall p: ManifestRef, k: ManifestRef
      ensures Listed(store, done, NOBODY, [], p, k) == Listed(store, done, r, [], p, k)
    {
    }
    forall c
      ensures RowsOf(leaves, c, Held(store, done, r, [], c))
    {
      assert RowsOf(leaves, c, Held(store, done, NOBODY, [], c));
    }
  }

  // ---------------------------------------------------------------- aggregation, on table values

  /** What is left of the incoming counts once the chunks of `p` are processed. */
  ghost predicate Remaining(chunks: ChunkTable, store: Store, p: set<ManifestRef>) {
    && p <= chunks.Keys
    && (forall k | k in chunks ::
      chunks[k].discovered && (chunks[k].processed <==> k in p) && chunks[k].multiplicity <= I64_MAX)
    && forall k {:trigger RemainingAt(chunks, store, p, k)} | k in chunks :: RemainingAt(chunks, store, p, k)
  }

  /** What `k` still has incoming and what `p` sent it are all its incoming edges. */
  ghost predicate RemainingAt(chunks: ChunkTable, store: Store, p: set<ManifestRef>, k: ManifestRef)
    requires k in chunks
  {
    chunks[k].incoming + InEdges(store, p, k) == InEdges(store, chunks.Keys, k)
  }

  /** Every multiplicity holds what the roots and the chunks of `p` contribute. */
  ghost predicate Flowing(chunks: ChunkTable, store: Store, roots: seq<ManifestRef>, depth: nat, p: set<ManifestRef>) {
    AllExpand(store, roots, depth) ==>
      forall k {:trigger FlowingAt(chunks, store, roots, depth, p, k)} | k in chunks ::
        FlowingAt(chunks, store, roots, depth, p, k)
  }

  /** `k` holds its share of the roots and what `p` pushed to it. */
  ghost predicate FlowingAt(chunks: ChunkTable, store: Store, roots: seq<ManifestRef>, depth: nat, p: set<ManifestRef>,
                            k: ManifestRef)
    requires k in chunks
  {
    chunks[k].multiplicity == multiset(roots)[k] + Inflow(store, roots, depth, p, k)
  }

  /** The objects of the leaves in `p` are counted. */
  ghost predicate Counted(refs: Refs, store: Store, roots: seq<ManifestRef>, depth: nat, p: set<ManifestRef>) {
    && (forall o :: o in refs <==> Sum(p, ObjectIn(store, o)) > 0)
    && (forall o | o in refs :: refs[o].size <= I64_MAX && refs[o].count <= I64_MAX)
    && (forall c, e | c in p && e in Entries(store, c) :: e.objectId in refs && refs[e.objectId].size == e.size)
    && (AllExpand(store, roots, depth) ==>
          forall o | o in refs :: refs[o].count == ObjectFlow(store, roots, depth, p, o))
  }

  /** Before aggregation every row holds what the roots contribute. */
  lemma NothingProcessed(chunks: ChunkTable, store: Store, roots: seq<ManifestRef>, depth: nat)
    requires ChunkRows(chunks, store, roots, chunks.Keys, [])
    ensures Remaining(chunks, store, {}) && Flowing(chunks, store, roots, depth, {})
  {
    hide AllVisits, AllExpand, EdgeCount;
    forall k | k in chunks
      ensures InEdges(store, {}, k) == 0 && FlowingAt(chunks, store, roots, depth, {}, k)
    {
      assert Inflow(store, roots, depth, {}, k) == 0;
    }
  }

  lemma NothingCounted(store: Store, roots: seq<ManifestRef>, depth: nat)
    ensures Counted(map[], store, roots, depth, {})
  {
  }

  lemma NothingLeftIncoming(store: Store, all: set<ManifestRef>, p: set<ManifestRef>, k: ManifestRef)
    requires p <= all && InEdges(store, p, k) == InEdges(store, all, k)
    ensures forall q | q in all - p :: EdgeCount(store, q, k) == 0
  {
    SumSplit(all, p, EdgesTo(store, k));
    SumZero(all - p, EdgesTo(store, k));
    forall q | q in all - p
      ensures EdgeCount(store, q, k) == 0
    {
      assert EdgesTo(store, k)(q) == 0;
    }
  }

  lemma AllInflowArrived(store: Store, roots: seq<ManifestRef>, depth: nat, all: set<ManifestRef>, p: set<ManifestRef>,
                         c: ManifestRef)
    requires p <= all && InEdges(store, p, c) == InEdges(store, all, c)
    ensures Inflow(store, roots, depth, p, c) == Inflow(store, roots, depth, all, c)
  {
    var flow := Weighted(AllVisits(store, roots, depth), EdgesTo(store, c));
    NothingLeftIncoming(store, all, p, c);
    SumSplit(all, p, flow);
    forall q | q in all - p
      ensures flow(q) == 0
    {
      assert EdgeCount(store, q, c) == 0;
    }
    SumZero(all - p, flow);
  }

  lemma GraphFlow(store: Store, roots: seq<ManifestRef>, depth: nat, all: set<ManifestRef>, k: ManifestRef)
    requires Graph(store, roots, all) && AllExpand(store, roots, depth)
    ensures Multiplicity(store, roots, depth, k) == multiset(roots)[k] + Inflow(store, roots, depth, all, k)
  {
    VisitsAreTheGraph(store, roots, depth, all);
    FlowEquation(store, roots, depth, all, k);
  }

  /** A ready chunk has received its whole multiplicity. */
  lemma ReadyIsExact(chunks: ChunkTable, store: Store, roots: seq<ManifestRef>, depth: nat, p: set<ManifestRef>,
                     c: ManifestRef)
    requires Graph(store, roots, chunks.Keys) && AllExpand(store, roots, depth)
    requires Remaining(chunks, store, p) && Flowing(chunks, store, roots, depth, p)
    requires c in chunks && chunks[c].incoming == 0
    ensures chunks[c].multiplicity == Multiplicity(store, roots, depth, c)
  {
    hide Graph, AllExpand, AllVisits, Inflow, InEdges;
    assert FlowingAt(chunks, store, roots, depth, p, c) && RemainingAt(chunks, store, p, c);
    GraphFlow(store, roots, depth, chunks.Keys, c);
    AllInflowArrived(store, roots, depth, chunks.Keys, p, c);
  }

  lemma InflowWithin(store: Store, roots: seq<ManifestRef>, depth: nat, p: set<ManifestRef>, c: ManifestRef,
                     k: ManifestRef)
    requires AllExpand(store, roots, depth)
    requires c !in p
    ensures Inflow(store, roots, depth, p + {c}, k)
         == Inflow(store, roots, depth, p, k) + Times(Multiplicity(store, roots, depth, c), EdgeCount(store, c, k))
  {
    SumAdd(p, c, Weighted(AllVisits(store, roots, depth), EdgesTo(store, k)));
  }

  lemma MoreInflow(store: Store, roots: seq<ManifestRef>, depth: nat, part: set<ManifestRef>, all: set<ManifestRef>,
                   k: ManifestRef)
    requires part <= all
    ensures Inflow(store, roots, depth, part, k) <= Inflow(store, roots, depth, all, k)
  {
    SumSplit(all, part, Weighted(AllVisits(store, roots, depth), EdgesTo(store, k)));
  }

  /** Pushing a ready chunk's multiplicity to a child stays in range when the totals do. */
  lemma PushFits(chunks: ChunkTable, store: Store, roots: seq<ManifestRef>, depth: nat,
                 p: set<ManifestRef>, c: ManifestRef, k: ManifestRef)
    requires Graph(store, roots, chunks.Keys) && Rebuildable(store, roots, depth)
    requires Remaining(chunks, store, p) && Flowing(chunks, store, roots, depth, p)
    requires c in chunks && c !in p && chunks[c].incoming == 0 && k in chunks
    ensures chunks[k].multiplicity + Times(chunks[c].multiplicity, EdgeCount(store, c, k)) <= I64_MAX
  {
    hide Graph, AllExpand, AllVisits, EdgeCount, InEdges, Inflow, Times;
    var all := chunks.Keys;
    assert FlowingAt(chunks, store, roots, depth, p, k);
    ReadyIsExact(chunks, store, roots, depth, p, c);
    GraphFlow(store, roots, depth, all, k);
    MoreInflow(store, roots, depth, p + {c}, all, k);
    InflowWithin(store, roots, depth, p, c, k);
    assert Multiplicity(store, roots, depth, k) <= I64_MAX;
  }

  lemma NoUnderflow(chunks: ChunkTable, store: Store, p: set<ManifestRef>, c: ManifestRef, k: ManifestRef)
    requires Remaining(chunks, store, p) && c in chunks && c !in p && k in chunks
    ensures EdgeCount(store, c, k) <= chunks[k].incoming
  {
    assert RemainingAt(chunks, store, p, k);
    SumSplit(chunks.Keys, p + {c}, EdgesTo(store, k));
    SumAdd(p, c, EdgesTo(store, k));
  }

  function Pushed(row: ChunkRow, multiplicity: nat, edgeCount: nat): ChunkRow
    requires edgeCount <= row.incoming
  {
    row.(multiplicity := row.multiplicity + Times(multiplicity, edgeCount), incoming := row.incoming - edgeCount)
  }

  lemma PushNothing(multiplicity: nat)
    ensures forall row: ChunkRow :: Pushed(row, multiplicity, 0) == row
  {
  }

  lemma EdgeRowsOf(edges: EdgeTable, store: Store, all: set<ManifestRef>, c: ManifestRef)
    requires EdgeRows(edges, store, all, NOBODY, []) && c in all
    ensures forall k: ManifestRef :: (c, k) in edges <==> EdgeCount(store, c, k) > 0
    ensures forall k: ManifestRef | (c, k) in edges :: edges[(c, k)] == EdgeCount(store, c, k)
  {
    forall k: ManifestRef
      ensures Listed(store, all, NOBODY, [], c, k) == EdgeCount(store, c, k)
    {
    }
  }

  /** `after` is `before` with the multiplicity of `c` pushed along all its listings. */
  ghost predicate PushedFrom(before: ChunkTable, after: ChunkTable, store: Store, c: ManifestRef) {
    && c in before && after.Keys == before.Keys
    && forall k | k in before ::
         && EdgeCount(store, c, k) <= before[k].incoming
         && after[k] == Pushed(before[k], before[c].multiplicity, EdgeCount(store, c, k))
  }

  function Finished(after: ChunkTable, c: ManifestRef): ChunkTable
    requires c in after
  {
    after[c := after[c].(processed := true)]
  }

  lemma FinishedRow(before: ChunkTable, after: ChunkTable, store: Store, c: ManifestRef, k: ManifestRef)
    requires PushedFrom(before, after, store, c) && k in before
    ensures Finished(after, c).Keys == before.Keys
    ensures Finished(after, c)[k].multiplicity
      == before[k].multiplicity + Times(before[c].multiplicity, EdgeCount(store, c, k))
    ensures Finished(after, c)[k].incoming + EdgeCount(store, c, k) == before[k].incoming
    ensures Finished(after, c)[k].discovered == before[k].discovered
    ensures Finished(after, c)[k].processed == (k == c || before[k].processed)
  {
  }

  lemma FinishedRows(before: ChunkTable, after: ChunkTable, store: Store, c: ManifestRef)
    requires PushedFrom(before, after, store, c)
    ensures Finished(after, c).Keys == before.Keys
    ensures forall k | k in before :: Finished(after, c)[k].incoming <= before[k].incoming
  {
    FinishedRow(before, after, store, c, c);
    forall k | k in before
      ensures Finished(after, c)[k].incoming <= before[k].incoming
    {
      FinishedRow(before, after, store, c, k);
    }
  }

  lemma RemainingAfter(before: ChunkTable, after: ChunkTable, store: Store, p: set<ManifestRef>, c: ManifestRef)
    requires Remaining(before, store, p) && c !in p && PushedFrom(before, after, store, c)
    requires forall k | k in after :: after[k].multiplicity <= I64_MAX
    ensures Remaining(Finished(after, c), store, p + {c})
  {
    var last := Finished(after, c);
    FinishedRow(before, after, store, c, c);
    forall k | k in last
      ensures last[k].discovered && (last[k].processed <==> k in p + {c})
      ensures RemainingAt(last, store, p + {c}, k)
    {
      assert RemainingAt(before, store, p, k);
      FinishedRow(before, after, store, c, k);
      SumAdd(p, c, EdgesTo(store, k));
    }
  }

  lemma FlowingAfter(before: ChunkTable, after: ChunkTable, store: Store, roots: seq<ManifestRef>, depth: nat,
                     p: set<ManifestRef>, c: ManifestRef)
    requires Graph(store, roots, before.Keys)
    requires Remaining(before, store, p) && Flowing(before, store, roots, depth, p)
    requires c !in p && PushedFrom(before, after, store, c) && before[c].incoming == 0
    ensures Flowing(Finished(after, c), store, roots, depth, p + {c})
  {
    if AllExpand(store, roots, depth) {
      ReadyIsExact(before, store, roots, depth, p, c);
      FinishedRow(before, after, store, c, c);
      forall k | k in Finished(after, c)
        ensures FlowingAt(Finished(after, c), store, roots, depth, p + {c}, k)
      {
        assert FlowingAt(before, store, roots, depth, p, k);
        FinishedRow(before, after, store, c, k);
        InflowWithin(store, roots, depth, p, c, k);
      }
    }
  }

  /** Processed chunks are never listed by a chunk processed later, nor a ready chunk by itself. */
  lemma OrderExtends(chunks: ChunkTable, store: Store, order: seq<ManifestRef>, p: set<ManifestRef>, c: ManifestRef)
    requires Remaining(chunks, store, p) && p == set x | x in order
    requires EdgesGoForward(store, order) && Distinct(order)
    requires forall k | k in p :: chunks[k].incoming == 0
    requires c in chunks && c !in p && chunks[c].incoming == 0
    ensures EdgesGoForward(store, order + [c]) && Distinct(order + [c])
  {
    hide InEdges, Times;
    var next := order + [c];
    forall i, j | 0 <= j <= i < |next|
      ensures next[j] !in Children(store, next[i])
    {
      if i == |order| {
        assert j < |order| ==> order[j] in p;
        NoUnderflow(chunks, store, p, c, next[j]);
      }
    }
  }

  /** `after` is `before` with every object row of leaf `c` added `m` times. */
  ghost predicate Absorbed(before: Refs, after: Refs, leaves: LeafTable, c: ManifestRef, m: nat) {
    forall o :: AbsorbedRow(before, after, leaves, c, m, o)
  }

  ghost predicate AbsorbedRow(before: Refs, after: Refs, leaves: LeafTable, c: ManifestRef, m: nat, o: Digest) {
    if (c, o) in leaves then
      && o in after && after[o].size == leaves[(c, o)].size
      && after[o].count == CountIn(before, o) + Times(m, leaves[(c, o)].occurrences) <= I64_MAX
      && (o in before ==> before[o].size == after[o].size)
    else
      (o in after <==> o in before) && (o in before ==> after[o] == before[o])
  }

  /** Adds the occurrences of one object in a leaf, each `multiplicity` times. */
  function AbsorbObject(refs: Refs, o: Digest, row: LeafRow, multiplicity: nat): (next: Result<Refs, IndexError>)
    requires row.size <= I64_MAX
    ensures next.Ok? ==>
      next.value == refs[o := ObjectRow(row.size, CountIn(refs, o) + Times(multiplicity, row.occurrences))]
    ensures next.Ok? ==> next.value[o].count <= I64_MAX && (o in refs ==> refs[o].size == row.size)
    ensures next.Err? ==>
      || (next.error == SizeConflict && o in refs && refs[o].size != row.size)
      || (next.error == Overflow && CountIn(refs, o) + Times(multiplicity, row.occurrences) > I64_MAX)
  {
    var count :- CheckedMul(multiplicity, row.occurrences);
    IncrementObjectRef(refs, o, row.size, count)
  }

  lemma RowsAfter(before: Refs, after: Refs, leaves: LeafTable, store: Store, roots: seq<ManifestRef>, depth: nat,
                  p: set<ManifestRef>, c: ManifestRef, m: nat, o: Digest)
    requires Counted(before, store, roots, depth, p) && c !in p
    requires RowsOf(leaves, c, Entries(store, c)) && AbsorbedRow(before, after, leaves, c, m, o)
    ensures o in after <==> Sum(p + {c}, ObjectIn(store, o)) > 0
    ensures o in after ==> after[o].size <= I64_MAX && after[o].count <= I64_MAX
    ensures forall q, e | q in p + {c} && e in Entries(store, q) && e.objectId == o ::
      o in after && after[o].size == e.size
  {
    hide AllExpand, ObjectFlow, Times, Readable;
    SumAdd(p, c, ObjectIn(store, o));
  }

  lemma FlowAfter(before: Refs, after: Refs, leaves: LeafTable, store: Store, roots: seq<ManifestRef>, depth: nat,
                  p: set<ManifestRef>, c: ManifestRef, m: nat, o: Digest)
    requires Counted(before, store, roots, depth, p) && c !in p && AllExpand(store, roots, depth)
    requires RowsOf(leaves, c, Entries(store, c)) && AbsorbedRow(before, after, leaves, c, m, o)
    requires m == Multiplicity(store, roots, depth, c)
    ensures CountIn(after, o) == ObjectFlow(store, roots, depth, p + {c}, o)
  {
    var held := Occurrences(Entries(store, c), o);
    NoFlowWithoutRow(before, store, roots, depth, p, o);
    SumAdd(p, c, Weighted(AllVisits(store, roots, depth), ObjectIn(store, o)));
    assert held == if (c, o) in leaves then leaves[(c, o)].occurrences else 0;
    assert Times(m, 0) == 0;
    hide Times, Counted, RowsOf, AllExpand;
    assert ObjectFlow(store, roots, depth, p + {c}, o) == CountIn(before, o) + Times(m, held);
  }

  lemma CountedAfter(before: Refs, after: Refs, leaves: LeafTable, store: Store, roots: seq<ManifestRef>, depth: nat,
                     p: set<ManifestRef>, c: ManifestRef, m: nat)
    requires Counted(before, store, roots, depth, p) && c !in p
    requires RowsOf(leaves, c, Entries(store, c)) && Absorbed(before, after, leaves, c, m)
    requires AllExpand(store, roots, depth) ==> m == Multiplicity(store, roots, depth, c)
    ensures Counted(after, store, roots, depth, p + {c})
  {
    hide Readable, AbsorbedRow, AllExpand, Multiplicity, RowsOf, ObjectFlow;
    forall o
      ensures o in after <==> Sum(p + {c}, ObjectIn(store, o)) > 0
      ensures o in after ==> after[o].size <= I64_MAX && after[o].count <= I64_MAX
    {
      assert AbsorbedRow(before, after, leaves, c, m, o);
      RowsAfter(before, after, leaves, store, roots, depth, p, c, m, o);
    }
    forall q, e | q in p + {c} && e in Entries(store, q)
      ensures e.objectId in after && after[e.objectId].size == e.size
    {
      assert AbsorbedRow(before, after, leaves, c, m, e.objectId);
      RowsAfter(before, after, leaves, store, roots, depth, p, c, m, e.objectId);
    }
    if AllExpand(store, roots, depth) {
      forall o | o in after
        ensures after[o].count == ObjectFlow(store, roots, depth, p + {c}, o)
      {
        assert AbsorbedRow(before, after, leaves, c, m, o);
        FlowAfter(before, after, leaves, store, roots, depth, p, c, m, o);
      }
    }
  }

  lemma NoFlowWithoutRow(refs: Refs, store: Store, roots: seq<ManifestRef>, depth: nat, p: set<ManifestRef>, o: Digest)
    requires Counted(refs, store, roots, depth, p) && AllExpand(store, roots, depth)
    ensures CountIn(refs, o) == ObjectFlow(store, roots, depth, p, o)
  {
    if o !in refs {
      SumZero(p, ObjectIn(store, o));
      forall c | c in p
        ensures Weighted(AllVisits(store, roots, depth), ObjectIn(store, o))(c) == 0
      {
        assert ObjectIn(store, o)(c) == 0;
      }
      SumZero(p, Weighted(AllVisits(store, roots, depth), ObjectIn(store, o)));
    }
  }

  /** Absorbing a leaf stays in range and meets no other size when the expansion allows a rebuild. */
  lemma AbsorbFits(refs: Refs, store: Store, roots: seq<ManifestRef>, depth: nat, all: set<ManifestRef>,
                   p: set<ManifestRef>, c: ManifestRef, e: Entry)
    requires Graph(store, roots, all) && Rebuildable(store, roots, depth)
    requires Counted(refs, store, roots, depth, p) && p <= all && c in all && c !in p
    requires e in Entries(store, c)
    ensures CountIn(refs, e.objectId)
          + Times(Multiplicity(store, roots, depth, c), Occurrences(Entries(store, c), e.objectId)) <= I64_MAX
    ensures e.objectId in refs ==> refs[e.objectId].size == e.size
  {
    var o := e.objectId;
    var flow := Weighted(AllVisits(store, roots, depth), ObjectIn(store, o));
    VisitsAreTheGraph(store, roots, depth, all);
    ObjectEquation(store, roots, depth, all, o);
    SumSplit(all, p + {c}, flow);
    SumAdd(p, c, flow);
    NoFlowWithoutRow(refs, store, roots, depth, p, o);
    if o in refs {
      SumZero(p, ObjectIn(store, o));
      var q :| q in p && ObjectIn(store, o)(q) > 0;
      OccurrencesPositive(Entries(store, q), o);
      var f :| f in Entries(store, q) && f.objectId == o;
      VisitedEntries(store, roots, depth, q);
      VisitedEntries(store, roots, depth, c);
    }
  }

  /** Chunks left over, none ready: no depth expands the roots. */
  lemma StuckMeansCycle(chunks: ChunkTable, store: Store, roots: seq<ManifestRef>, p: set<ManifestRef>, d: nat)
    requires Graph(store, roots, chunks.Keys) && Remaining(chunks, store, p)
    requires exists k :: k in chunks && k !in p
    requires forall k | k in chunks && k !in p :: chunks[k].incoming > 0
    ensures !AllExpand(store, roots, d)
  {
    var stuck := chunks.Keys - p;
    var left :| left in chunks && left !in p;
    assert left in stuck;
    forall k | k in stuck
      ensures InEdges(store, stuck, k) > 0
    {
      assert RemainingAt(chunks, store, p, k);
      SumSplit(chunks.Keys, p, EdgesTo(store, k));
    }
    var c := NoReadyMeansCycle(store, stuck, d);
    if AllExpand(store, roots, d) {
      VisitsAreTheGraph(store, roots, d, chunks.Keys);
      VisitedExpands(store, roots, d, c);
    }
  }

  /** All chunks processed in a forward order: the roots expand. */
  lemma FinishedExpands(store: Store, roots: seq<ManifestRef>, order: seq<ManifestRef>)
    requires Graph(store, roots, set c | c in order) && EdgesGoForward(store, order)
    ensures AllExpand(store, roots, |order|)
  {
    ForwardOrderExpands(store, order, 0);
    forall r | r in roots
      ensures Expands(store, r, |order|)
    {
      assert r in (set c | c in order);
    }
  }

  /** With every chunk processed the object table tallies the expansion, and everything fitted. */
  lemma CountedIsTally(chunks: ChunkTable, refs: Refs, store: Store, roots: seq<ManifestRef>, depth: nat)
    requires Graph(store, roots, chunks.Keys) && AllExpand(store, roots, depth)
    requires Counted(refs, store, roots, depth, chunks.Keys)
    ensures Tallies(refs, Expansion(store, roots, depth))
  {
    var visits := AllVisits(store, roots, depth);
    VisitsAreTheGraph(store, roots, depth, chunks.Keys);
    forall o
      ensures CountIn(refs, o) == Occurrences(Expansion(store, roots, depth), o)
      ensures o in refs <==> Occurrences(Expansion(store, roots, depth), o) > 0
    {
      ObjectEquation(store, roots, depth, chunks.Keys, o);
      NoFlowWithoutRow(refs, store, roots, depth, chunks.Keys, o);
      if o in refs {
        SumZero(chunks.Keys, ObjectIn(store, o));
        var c :| c in chunks.Keys && ObjectIn(store, o)(c) > 0;
        LeafWithinExpansion(store, roots, depth, c, o);
      }
    }
    forall e | e in Expansion(store, roots, depth)
      ensures e.objectId in refs && refs[e.objectId].size == e.size
    {
      FlattenMembers(store, visits, e);
      var c :| c in visits && e in Entries(store, c);
      assert c in chunks.Keys;
    }
  }

  lemma FinishedIsRebuildable(chunks: ChunkTable, refs: Refs, store: Store, roots: seq<ManifestRef>, depth: nat)
    requires Graph(store, roots, chunks.Keys) && AllExpand(store, roots, depth)
    requires Counted(refs, store, roots, depth, chunks.Keys)
    requires Remaining(chunks, store, chunks.Keys) && Flowing(chunks, store, roots, depth, chunks.Keys)
    ensures Rebuildable(store, roots, depth)
  {
    CountedIsTally(chunks, refs, store, roots, depth);
    TallyIsUnique(refs, refs, Expansion(store, roots, depth));
    VisitsAreTheGraph(store, roots, depth, chunks.Keys);
    forall t
      ensures Multiplicity(store, roots, depth, t) <= I64_MAX
    {
      if t in chunks {
        assert RemainingAt(chunks, store, chunks.Keys, t);
        ReadyIsExact(chunks, store, roots, depth, chunks.Keys, t);
      }
    }
  }

  /** The depth is immaterial to what a rebuild needs. */
  lemma RebuildableAtAnyDepth(store: Store, roots: seq<ManifestRef>, d: nat, e: nat)
    requires Rebuildable(store, roots, d) && AllExpand(store, roots, e)
    ensures Rebuildable(store, roots, e)
  {
    AnyDepth(store, roots, d, e);
    forall t
      ensures Multiplicity(store, roots, e, t) <= I64_MAX
    {
      assert Multiplicity(store, roots, d, t) <= I64_MAX;
    }
  }

  /** A push that fails names a total that is out of range; it never fails by underflow. */
  lemma PushRefused(chunks: ChunkTable, store: Store, roots: seq<ManifestRef>, depth: nat,
                    p: set<ManifestRef>, c: ManifestRef, k: ManifestRef)
    requires Graph(store, roots, chunks.Keys)
    requires Remaining(chunks, store, p) && Flowing(chunks, store, roots, depth, p)
    requires c in chunks && c !in p && chunks[c].incoming == 0 && k in chunks
    requires || chunks[k].multiplicity + Times(chunks[c].multiplicity, EdgeCount(store, c, k)) > I64_MAX
             || EdgeCount(store, c, k) > chunks[k].incoming
    ensures EdgeCount(store, c, k) <= chunks[k].incoming
    ensures !Rebuildable(store, roots, depth)
  {
    NoUnderflow(chunks, store, p, c, k);
    if Rebuildable(store, roots, depth) {
      PushFits(chunks, store, roots, depth, p, c, k);
    }
  }

  /** A leaf that cannot be absorbed shows why no rebuild is possible. */
  lemma AbsorbRefused(refs: Refs, leaves: LeafTable, store: Store, roots: seq<ManifestRef>, depth: nat,
                      all: set<ManifestRef>, p: set<ManifestRef>, c: ManifestRef, m: nat, o: Digest)
    requires Graph(store, roots, all) && Counted(refs, store, roots, depth, p) && p <= all && c in all && c !in p
    requires RowsOf(leaves, c, Entries(store, c)) && (c, o) in leaves
    requires AllExpand(store, roots, depth) ==> m == Multiplicity(store, roots, depth, c)
    requires || (o in refs && refs[o].size != leaves[(c, o)].size)
             || CountIn(refs, o) + Times(m, leaves[(c, o)].occurrences) > I64_MAX
    ensures !Rebuildable(store, roots, depth)
  {
    if Rebuildable(store, roots, depth) {
      OccurrencesPositive(Entries(store, c), o);
      var e :| e in Entries(store, c) && e.objectId == o;
      AbsorbFits(refs, store, roots, depth, all, p, c, e);
    }
  }

  lemma NodeHoldsNoObjects(refs: Refs, leaves: LeafTable, store: Store, roots: seq<ManifestRef>, depth: nat,
                           p: set<ManifestRef>, c: ManifestRef)
    requires Counted(refs, store, roots, depth, p) && c !in p
    requires RowsOf(leaves, c, []) && Entries(store, c) == []
    ensures Counted(refs, store, roots, depth, p + {c})
  {
    forall o: Digest
      ensures AbsorbedRow(refs, refs, leaves, c, Multiplicity(store, roots, depth, c), o)
    {
      assert (c, o) !in leaves;
    }
    CountedAfter(refs, refs, leaves, store, roots, depth, p, c, Multiplicity(store, roots, depth, c));
  }

  lemma GraphChunk(store: Store, roots: seq<ManifestRef>, all: set<ManifestRef>, c: ManifestRef)
    requires Graph(store, roots, all) && c in all
    ensures Readable(store, c) && !c.kind.Root?
    ensures forall k | k in Children(store, c) :: k in all
    ensures c.kind.Node? ==> Entries(store, c) == []
    ensures c.kind.Leaf? ==> Children(store, c) == []
  {
  }

  lemma RemainingFacts(chunks: ChunkTable, store: Store, p: set<ManifestRef>)
    requires Remaining(chunks, store, p)
    ensures p <= chunks.Keys
    ensures forall k | k in chunks ::
      chunks[k].discovered && chunks[k].multiplicity <= I64_MAX && (chunks[k].processed <==> k in p)
  {
  }

  lemma PartCount<T>(part: set<T>, whole: set<T>)
    requires part <= whole
    ensures |part| <= |whole|
    ensures |part| == |whole| <==> part == whole
  {
    assert whole == part + (whole - part);
  }

  lemma Leftover<T>(part: set<T>, whole: set<T>) returns (x: T)
    requires part <= whole && part != whole
    ensures x in whole && x !in part
  {
    x :| x in whole && x !in part;
  }

  lemma NothingPushed(chunks: ChunkTable, store: Store, c: ManifestRef)
    requires c in chunks && Children(store, c) == []
    ensures PushedFrom(chunks, chunks, store, c)
  {
  }

  /** `depth` stands for all depths: it expands the roots if any depth does. */
  lemma NotRebuildable(store: Store, roots: seq<ManifestRef>, depth: nat)
    requires (exists d :: AllExpand(store, roots, d)) ==> AllExpand(store, roots, depth)
    requires !Rebuildable(store, roots, depth)
    ensures forall d :: !Rebuildable(store, roots, d)
  {
    if d :| Rebuildable(store, roots, d) {
      RebuildableAtAnyDepth(store, roots, d, depth);
    }
  }

  lemma RebuildFinished(chunks: ChunkTable, refs: Refs, store: Store, roots: seq<ManifestRef>, depth: nat,
                        order: seq<ManifestRef>)
    requires Graph(store, roots, chunks.Keys) && (set c | c in order) == chunks.Keys
    requires EdgesGoForward(store, order) && Remaining(chunks, store, chunks.Keys)
    requires Flowing(chunks, store, roots, depth, chunks.Keys) && Counted(refs, store, roots, depth, chunks.Keys)
    requires (exists d :: AllExpand(store, roots, d)) ==> AllExpand(store, roots, depth)
    ensures Rebuildable(store, roots, depth)
    ensures forall d | AllExpand(store, roots, d) ::
      Tallies(refs, Expansion(store, roots, d)) && |chunks| == |set c | c in AllVisits(store, roots, d)|
  {
    hide Remaining, Flowing, Counted, Graph, EdgesGoForward, Rebuildable, Tallies, AllExpand;
    FinishedExpands(store, roots, order);
    FinishedIsRebuildable(chunks, refs, store, roots, depth);
    CountedIsTally(chunks, refs, store, roots, depth);
    forall d | AllExpand(store, roots, d)
      ensures Tallies(refs, Expansion(store, roots, d)) && |chunks| == |set c | c in AllVisits(store, roots, d)|
    {
      AnyDepth(store, roots, depth, d);
      VisitsAreTheGraph(store, roots, d, chunks.Keys);
    }
  }

  /** A reference no chunk table row ever gets discovered under: no chunk is half recorded. */
  const NOBODY: ManifestRef := ManifestRef(Root, 0)

  class RebuildTables {
    var chunks: ChunkTable
    var pending: set<ManifestRef>
    var edges: EdgeTable
    var leafObjects: LeafTable
    var objectRefs: Refs

    constructor ()
      ensures Queued([])
    {
      chunks, pending, edges, leafObjects, objectRefs := map[], {}, map[], map[], map[];
    }

    ghost predicate Queued(roots: seq<ManifestRef>)
      reads this
    {
      && (forall q :: q in chunks <==> q in roots)
      && (forall q | q in chunks ::
        chunks[q] == ChunkRow(false, false, 0, multiset(roots)[q]) && multiset(roots)[q] <= I64_MAX)
      && pending == chunks.Keys
      && edges == map[] && leafObjects == map[] && objectRefs == map[]
    }

    method QueueRoot(ghost roots: seq<ManifestRef>, r: ManifestRef) returns (res: Result<Unit, IndexError>)
      requires Queued(roots)
      modifies this
      ensures res.Ok? ==> Queued(roots + [r])
      ensures res.Err? ==> res.error == Overflow && multiset(roots + [r])[r] > I64_MAX
    {
      if r in chunks {
        var next :- AddStored(chunks[r].multiplicity, 1);
        chunks := chunks[r := chunks[r].(multiplicity := next)];
      } else {
        assert multiset(roots)[r] == 0;
        chunks := chunks[r := ChunkRow(false, false, 0, 1)];
        pending := pending + {r};
      }
      return Ok(Done);
    }

    /** Inserts the row of a chunk seen for the first time and queues it for discovery. */
    method RegisterChunk(store: Store, ghost roots: seq<ManifestRef>, ghost done: set<ManifestRef>,
                         r: ManifestRef, ghost kids: seq<ManifestRef>, child: ManifestRef)
      requires r !in done && r in chunks && child in Children(store, r)
      requires ChunkRows(chunks, store, roots, done, kids)
      requires Frontier(chunks.Keys, store, roots, done) && pending == chunks.Keys - done - {r}
      requires forall k | k in kids :: k in chunks
      modifies this`chunks, this`pending
      ensures ChunkRows(chunks, store, roots, done, kids) && Frontier(chunks.Keys, store, roots, done)
      ensures pending == chunks.Keys - done - {r}
      ensures chunks.Keys == old(chunks.Keys) + {child}
    {
      hide ChunkRows, OnlyReachable, Readable, Children;
      if child !in chunks {
        ChildRowAdded(chunks, store, roots, done, kids, child);
        ExtendReachable(store, roots, chunks.Keys, r, child);
        chunks := chunks[child := ChunkRow(false, false, 0, 0)];
        pending := pending + {child};
        assert chunks.Keys == old(chunks.Keys) + {child};
      }
    }

    method RecordEdge(store: Store, ghost done: set<ManifestRef>, r: ManifestRef, ghost kids: seq<ManifestRef>,
                      child: ManifestRef)
      returns (res: Result<Unit, IndexError>)
      requires r !in done && EdgeRows(edges, store, done, r, kids)
      modifies this`edges
      ensures res.Ok? ==> EdgeRows(edges, store, done, r, kids + [child])
      ensures res.Err? ==> res.error == Overflow && multiset(kids + [child])[child] > I64_MAX
    {
      EdgeRecorded(edges, store, done, r, kids, child);
      var edgeCount :- AddStored(if (r, child) in edges then edges[(r, child)] else 0, 1);
      edges := edges[(r, child) := edgeCount];
      return Ok(Done);
    }

    method CountListing(store: Store, ghost roots: seq<ManifestRef>, ghost done: set<ManifestRef>,
                        ghost kids: seq<ManifestRef>, child: ManifestRef)
      returns (res: Result<Unit, IndexError>)
      requires child in chunks && ChunkRows(chunks, store, roots, done, kids)
      modifies this`chunks
      ensures chunks.Keys == old(chunks.Keys)
      ensures res.Ok? ==> ChunkRows(chunks, store, roots, done, kids + [child])
      ensures res.Err? ==>
        res.error == Overflow && InEdges(store, done, child) + multiset(kids + [child])[child] > I64_MAX
    {
      hide InEdges;
      var incoming :- AddStored(chunks[child].incoming, 1);
      ListingCounted(chunks, store, roots, done, kids, child);
      chunks := chunks[child := chunks[child].(incoming := incoming)];
      return Ok(Done);
    }

    method DiscoverEdge(store: Store, ghost roots: seq<ManifestRef>, ghost depth: nat, ghost done: set<ManifestRef>,
                        r: ManifestRef, ghost kids: seq<ManifestRef>, child: ManifestRef)
      returns (res: Result<Unit, IndexError>)
      requires r !in done && r in chunks && kids + [child] <= Children(store, r)
      requires EdgeRows(edges, store, done, r, kids) && ChunkRows(chunks, store, roots, done, kids)
      requires Frontier(chunks.Keys, store, roots, done) && pending == chunks.Keys - done - {r}
      requires forall k | k in kids :: k in chunks
      modifies this`chunks, this`pending, this`edges
      ensures res.Ok? ==>
        && EdgeRows(edges, store, done, r, kids + [child]) && ChunkRows(chunks, store, roots, done, kids + [child])
        && Frontier(chunks.Keys, store, roots, done) && pending == chunks.Keys - done - {r}
        && chunks.Keys == old(chunks.Keys) + {child}
      ensures res.Err? ==> res.error == Overflow && !Rebuildable(store, roots, depth)
    {
      hide EdgeRows, ChunkRows, OnlyReachable, Rebuildable, InEdges, Children, Readable, ChildrenIn;
      assert child == Children(store, r)[|kids|];
      RegisterChunk(store, roots, done, r, kids, child);
      if Rebuildable(store, roots, depth) {
        IncomingFits(store, roots, depth, chunks.Keys, done, r, kids + [child], child);
      }
      var _ :- RecordEdge(store, done, r, kids, child);
      var _ :- CountListing(store, roots, done, kids, child);
      return Ok(Done);
    }

    method DiscoverLeafObject(store: Store, ghost roots: seq<ManifestRef>, ghost depth: nat,
                              ghost done: set<ManifestRef>, r: ManifestRef, ghost before: seq<Entry>, e: Entry)
      returns (res: Result<Unit, IndexError>)
      requires r !in done && r in chunks && before + [e] <= Entries(store, r)
      requires LeafRows(leafObjects, store, done, r, before) && OnlyReachable(store, roots, chunks.Keys)
      modifies this`leafObjects
      ensures res.Ok? ==> LeafRows(leafObjects, store, done, r, before + [e])
      ensures res.Err? ==> res.error in {SizeConflict, Overflow} && !Rebuildable(store, roots, depth)
    {
      hide AllVisits, AllExpand, OnlyReachable, EdgeCount, Multiplicity;
      var key := (r, e.objectId);
      if Rebuildable(store, roots, depth) {
        LeafFits(store, roots, depth, chunks.Keys, r, before + [e], e.objectId);
        assert e in before + [e];
        assert e.size <= I64_MAX;
        OccurrencesAppend(before, e, e.objectId);
      }
      assert RowsOf(leafObjects, r, Held(store, done, r, before, r));
      if key in leafObjects && leafObjects[key].size != e.size {
        OccurrencesPositive(before, e.objectId);
        ghost var f :| f in before && f.objectId == e.objectId;
        assert leafObjects[(r, f.objectId)].size == f.size;
        assert f in before + [e];
        return Err(SizeConflict);
      } else if key in leafObjects {
        LeafObjectRecorded(leafObjects, store, done, r, before, e);
        var count :- AddStored(leafObjects[key].occurrences, 1);
        leafObjects := leafObjects[key := leafObjects[key].(occurrences := count)];
      } else {
        var size :- ToSqlite(e.size);
        LeafObjectRecorded(leafObjects, store, done, r, before, e);
        leafObjects := leafObjects[key := LeafRow(size, 1)];
      }
      return Ok(Done);
    }

    method DiscoverChildren(store: Store, ghost roots: seq<ManifestRef>, ghost depth: nat, ghost done: set<ManifestRef>,
                            r: ManifestRef, children: seq<ManifestRef>)
      returns (res: Result<Unit, IndexError>)
      requires r !in done && r in chunks && children == Children(store, r)
      requires EdgeRows(edges, store, done, r, []) && ChunkRows(chunks, store, roots, done, [])
      requires Frontier(chunks.Keys, store, roots, done) && pending == chunks.Keys - done - {r}
      modifies this`chunks, this`pending, this`edges
      ensures res.Ok? ==>
        && EdgeRows(edges, store, done, r, children) && ChunkRows(chunks, store, roots, done, children)
        && Frontier(chunks.Keys, store, roots, done) && pending == chunks.Keys - done - {r}
        && r in chunks && ChildrenIn(store, r, chunks.Keys)
      ensures res.Err? ==> res.error == Overflow && !Rebuildable(store, roots, depth)
    {
      hide EdgeRows, ChunkRows, Frontier, Rebuildable, Children;
      for i := 0 to |children|
        invariant EdgeRows(edges, store, done, r, children[..i]) && ChunkRows(chunks, store, roots, done, children[..i])
        invariant Frontier(chunks.Keys, store, roots, done) && pending == chunks.Keys - done - {r}
        invariant r in chunks && forall k | k in children[..i] :: k in chunks
      {
        assert children[..i] + [children[i]] == children[..i + 1];
        var _ :- DiscoverEdge(store, roots, depth, done, r, children[..i], children[i]);
      }
      assert children[..|children|] == children;
      return Ok(Done);
    }

    method DiscoverEntries(store: Store, ghost roots: seq<ManifestRef>, ghost depth: nat, ghost done: set<ManifestRef>,
                           r: ManifestRef, entries: seq<Entry>)
      returns (res: Result<Unit, IndexError>)
      requires r !in done && r in chunks && entries == Entries(store, r)
      requires LeafRows(leafObjects, store, done, r, []) && OnlyReachable(store, roots, chunks.Keys)
      modifies this`leafObjects
      ensures res.Ok? ==> LeafRows(leafObjects, store, done, r, entries)
      ensures res.Err? ==> res.error in {SizeConflict, Overflow} && !Rebuildable(store, roots, depth)
    {
      hide LeafRows, OnlyReachable, Rebuildable, Entries;
      for i := 0 to |entries|
        invariant LeafRows(leafObjects, store, done, r, entries[..i])
      {
        assert entries[..i] + [entries[i]] == entries[..i + 1];
        var _ :- DiscoverLeafObject(store, roots, depth, done, r, entries[..i], entries[i]);
      }
      assert entries[..|entries|] == entries;
      return Ok(Done);
    }

    /** The graph tables describe exactly the chunks of `done`; the other known chunks are pending. */
    ghost predicate Discovering(store: Store, roots: seq<ManifestRef>, done: set<ManifestRef>)
      reads this
    {
      && EdgeRows(edges, store, done, NOBODY, []) && LeafRows(leafObjects, store, done, NOBODY, [])
      && ChunkRows(chunks, store, roots, done, []) && Frontier(chunks.Keys, store, roots, done)
      && pending == chunks.Keys - done && objectRefs == map[]
    }

    method FinishChunk(store: Store, ghost roots: seq<ManifestRef>, ghost done: set<ManifestRef>, r: ManifestRef)
      requires r !in done && r in chunks && Readable(store, r)
      requires EdgeRows(edges, store, done, r, Children(store, r))
        && LeafRows(leafObjects, store, done, r, Entries(store, r))
      requires ChunkRows(chunks, store, roots, done, Children(store, r)) && Frontier(chunks.Keys, store, roots, done)
      requires ChildrenIn(store, r, chunks.Keys)
      requires pending == chunks.Keys - done - {r} && objectRefs == map[]
      modifies this`chunks
      ensures Discovering(store, roots, done + {r})
    {
      hide EdgeRows, LeafRows, ChunkRows, OnlyReachable, Readable, ChildrenIn;
      EdgesComplete(edges, store, done, r);
      ChildrenComplete(chunks, store, roots, done, r);
      EntriesComplete(leafObjects, store, done, r);
      chunks := chunks[r := chunks[r].(discovered := true)];
      assert chunks.Keys == old(chunks.Keys);
    }

    method DiscoverNode(store: Store, ghost roots: seq<ManifestRef>, ghost depth: nat, ghost done: set<ManifestRef>,
                        r: ManifestRef)
      returns (res: Result<Unit, IndexError>)
      requires Discovering(store, roots, done) && r in pending && Readable(store, r) && r.kind.Node?
      modifies this`chunks, this`pending, this`edges
      ensures res.Ok? ==> Discovering(store, roots, done + {r})
      ensures res.Err? ==> res.error == Overflow && !Rebuildable(store, roots, depth)
    {
      hide EdgeRows, LeafRows, ChunkRows, Frontier, OnlyReachable, Rebuildable;
      NothingStarted(edges, leafObjects, store, done, r);
      pending := pending - {r};
      assert Entries(store, r) == [];
      var _ :- DiscoverChildren(store, roots, depth, done, r, Children(store, r));
      FinishChunk(store, roots, done, r);
      return Ok(Done);
    }

    method DiscoverLeaf(store: Store, ghost roots: seq<ManifestRef>, ghost depth: nat, ghost done: set<ManifestRef>,
                        r: ManifestRef)
      returns (res: Result<Unit, IndexError>)
      requires Discovering(store, roots, done) && r in pending && Readable(store, r) && r.kind.Leaf?
      modifies this`chunks, this`pending, this`leafObjects
      ensures res.Ok? ==> Discovering(store, roots, done + {r})
      ensures res.Err? ==> res.error in {SizeConflict, Overflow} && !Rebuildable(store, roots, depth)
    {
      hide EdgeRows, LeafRows, ChunkRows, OnlyReachable, Rebuildable;
      NothingStarted(edges, leafObjects, store, done, r);
      pending := pending - {r};
      assert Children(store, r) == [];
      var _ :- DiscoverEntries(store, roots, depth, done, r, store[r].entries);
      FinishChunk(store, roots, done, r);
      return Ok(Done);
    }

    /** Loads one pending chunk and records its listings or its objects. */
    method DiscoverChunk(store: Store, ghost roots: seq<ManifestRef>, ghost depth: nat, ghost done: set<ManifestRef>,
                         r: ManifestRef)
      returns (res: Result<Unit, IndexError>)
      requires Discovering(store, roots, done) && r in pending
      modifies this`chunks, this`pending, this`edges, this`leafObjects
      ensures res.Ok? ==> Readable(store, r) && Discovering(store, roots, done + {r})
      ensures res.Err? ==> !Rebuildable(store, roots, depth)
      ensures res == Err(Unreadable) ==> !AllExpand(store, roots, depth)
      ensures res.Err? ==> res.error in {Unreadable, SizeConflict, Overflow}
    {
      if !Readable(store, r) {
        UnreadableReachable(store, roots, depth, chunks.Keys, r);
        res := Err(Unreadable);
      } else if r.kind.Node? {
        res := DiscoverNode(store, roots, depth, done, r);
      } else {
        res := DiscoverLeaf(store, roots, depth, done, r);
      }
    }

    lemma QueuedIsDiscovering(store: Store, roots: seq<ManifestRef>)
      requires Queued(roots)
      ensures Discovering(store, roots, {})
    {
      forall k | k in chunks
        ensures InEdges(store, {}, k) == 0
      {
      }
    }

    lemma NothingPending(store: Store, roots: seq<ManifestRef>, done: set<ManifestRef>)
      requires Discovering(store, roots, done) && pending == {}
      ensures done == chunks.Keys && |done| == |chunks|
    {
      forall c | c in chunks.Keys
        ensures c in done
      {
        assert c !in chunks.Keys - done;
      }
      assert done == chunks.Keys;
    }

    /** Discovers the whole graph, loading every chunk once. */
    method DiscoverGraph(store: Store, ghost roots: seq<ManifestRef>, ghost depth: nat)
      returns (res: Result<nat, IndexError>)
      requires Queued(roots)
      modifies this`chunks, this`pending, this`edges, this`leafObjects
      ensures res.Ok? ==> Discovering(store, roots, chunks.Keys) && res.value == |chunks|
      ensures res.Err? ==> !Rebuildable(store, roots, depth)
      ensures res == Err(Unreadable) ==> !AllExpand(store, roots, depth)
      ensures res.Err? ==> res.error in {Unreadable, SizeConflict, Overflow}
    {
      var loads := 0;
      ghost var done := {};
      QueuedIsDiscovering(store, roots);
      while pending != {}
        invariant Discovering(store, roots, done)
        invariant done <= store.Keys && loads == |done|
        decreases store.Keys - done
      {
        var r :| r in pending;
        ghost var next := done + {r};
        assert |next| == |done| + 1;
        var _ :- DiscoverChunk(store, roots, depth, done, r);
        done := next;
        loads := loads + 1;
      }
      NothingPending(store, roots, done);
      return Ok(loads);
    }

    // -------------------------------------------------------------- aggregation

    /** The discovered graph, fully recorded. */
    ghost predicate Recorded(store: Store, roots: seq<ManifestRef>)
      reads this
    {
      && EdgeRows(edges, store, chunks.Keys, NOBODY, []) && LeafRows(leafObjects, store, chunks.Keys, NOBODY, [])
      && Graph(store, roots, chunks.Keys)
    }

    /** The chunks of `order` are processed, in that order. */
    ghost predicate Aggregating(store: Store, roots: seq<ManifestRef>, depth: nat, order: seq<ManifestRef>)
      reads this
    {
      var p := set c | c in order;
      && Remaining(chunks, store, p) && Flowing(chunks, store, roots, depth, p)
      && Counted(objectRefs, store, roots, depth, p)
      && EdgesGoForward(store, order) && Distinct(order)
      && forall k | k in p :: chunks[k].incoming == 0
    }

    /** Some chunks with nothing left incoming, none only if there is none; at most `limit` of them. */
    method ReadReady(limit: nat) returns (ready: seq<ManifestRef>)
      requires limit > 0
      ensures |ready| <= limit && Distinct(ready)
      ensures forall c | c in ready ::
        c in chunks && chunks[c].discovered && !chunks[c].processed && chunks[c].incoming == 0
      ensures ready == [] ==>
        forall c | c in chunks :: !chunks[c].discovered || chunks[c].processed || chunks[c].incoming > 0
    {
      ready := [];
      var candidates := set c | c in chunks && chunks[c].discovered && !chunks[c].processed && chunks[c].incoming == 0;
      while candidates != {} && |ready| < limit
        invariant |ready| <= limit && Distinct(ready)
        invariant forall c | c in candidates ::
          c in chunks && chunks[c].discovered && !chunks[c].processed && chunks[c].incoming == 0
        invariant forall c | c in ready ::
          c in chunks && chunks[c].discovered && !chunks[c].processed && chunks[c].incoming == 0
        invariant forall c | c in ready :: c !in candidates
        invariant ready == [] ==>
          candidates == set c | c in chunks && chunks[c].discovered && !chunks[c].processed && chunks[c].incoming == 0
        decreases candidates
      {
        var c :| c in candidates;
        ready := ready + [c];
        candidates := candidates - {c};
      }
      if ready == [] {
        forall c | c in chunks && chunks[c].discovered && !chunks[c].processed
          ensures chunks[c].incoming > 0
        {
          assert c !in candidates;
        }
      }
    }

    method PushEdge(k: ManifestRef, multiplicity: nat, edgeCount: nat) returns (res: Result<Unit, IndexError>)
      requires k in chunks
      modifies this`chunks
      ensures res.Ok? ==> edgeCount <= old(chunks)[k].incoming
      ensures res.Ok? ==> chunks == old(chunks)[k := Pushed(old(chunks)[k], multiplicity, edgeCount)]
      ensures res.Ok? ==> Pushed(old(chunks)[k], multiplicity, edgeCount).multiplicity <= I64_MAX
      ensures res.Err? ==> chunks == old(chunks)
      ensures res == Err(Overflow) ==> chunks[k].multiplicity + Times(multiplicity, edgeCount) > I64_MAX
      ensures res.Err? && res.error != Overflow ==> res.error == Underflow && edgeCount > chunks[k].incoming
    {
      var next :- AddProductStored(chunks[k].multiplicity, multiplicity, edgeCount);
      if chunks[k].incoming < edgeCount {
        return Err(Underflow);
      }
      chunks := chunks[k := chunks[k].(multiplicity := next, incoming := chunks[k].incoming - edgeCount)];
      return Ok(Done);
    }

    /** Pushes the multiplicity of a ready node along its listings. */
    method PushToChildren(store: Store, c: ManifestRef)
      returns (res: Result<Unit, IndexError>, ghost blocked: ManifestRef)
      requires c in chunks && EdgeRows(edges, store, chunks.Keys, NOBODY, [])
      requires EdgeCount(store, c, c) == 0
      requires forall k | k in Children(store, c) :: k in chunks
      requires forall k | k in chunks :: chunks[k].multiplicity <= I64_MAX
      modifies this`chunks
      ensures chunks.Keys == old(chunks.Keys)
      ensures res.Ok? ==>
        && PushedFrom(old(chunks), chunks, store, c)
        && forall k | k in chunks :: chunks[k].multiplicity <= I64_MAX
      ensures res.Err? ==> blocked in old(chunks)
      ensures res.Err? ==>
        || (res.error == Overflow
            && old(chunks)[blocked].multiplicity
              + Times(old(chunks)[c].multiplicity, EdgeCount(store, c, blocked)) > I64_MAX)
        || (res.error == Underflow && EdgeCount(store, c, blocked) > old(chunks)[blocked].incoming)
    {
      hide EdgeRows, EdgeCount, Children, Times, Pushed;
      blocked := c;
      var multiplicity := chunks[c].multiplicity;
      EdgeRowsOf(edges, store, chunks.Keys, c);
      PushNothing(multiplicity);
      var todo := set k | k in chunks && (c, k) in edges;
      while todo != {}
        invariant chunks.Keys == old(chunks.Keys)
        invariant forall k | k in todo :: k in chunks && (c, k) in edges && chunks[k] == old(chunks)[k]
        invariant forall k | k in chunks && k !in todo ::
          && EdgeCount(store, c, k) <= old(chunks)[k].incoming
          && chunks[k] == Pushed(old(chunks)[k], multiplicity, EdgeCount(store, c, k))
        invariant forall k | k in chunks :: chunks[k].multiplicity <= I64_MAX
        decreases todo
      {
        var k :| k in todo;
        todo := todo - {k};
        blocked := k;
        var _ :- PushEdge(k, multiplicity, edges[(c, k)]);
      }
      return Ok(Done), c;
    }

    /** Adds the objects of a ready leaf, each its occurrences times the leaf's multiplicity. */
    method AbsorbLeaf(store: Store, c: ManifestRef) returns (res: Result<Unit, IndexError>, ghost blocked: Digest)
      requires c in chunks && RowsOf(leafObjects, c, Entries(store, c))
      modifies this`objectRefs
      ensures res.Ok? ==> Absorbed(old(objectRefs), objectRefs, leafObjects, c, chunks[c].multiplicity)
      ensures res.Err? ==> (c, blocked) in leafObjects
      ensures res.Err? ==>
        || (res.error == SizeConflict && blocked in old(objectRefs)
            && old(objectRefs)[blocked].size != leafObjects[(c, blocked)].size)
        || (res.error == Overflow
            && CountIn(old(objectRefs), blocked)
              + Times(chunks[c].multiplicity, leafObjects[(c, blocked)].occurrences) > I64_MAX)
    {
      hide Occurrences, Entries, Times, AbsorbObject;
      blocked := 0;
      var multiplicity := chunks[c].multiplicity;
      var todo := set key | key in leafObjects && key.0 == c :: key.1;
      while todo != {}
        invariant forall o | o in todo ::
          (c, o) in leafObjects && CountIn(objectRefs, o) == CountIn(old(objectRefs), o)
          && (o in objectRefs <==> o in old(objectRefs)) && (o in objectRefs ==> objectRefs[o] == old(objectRefs)[o])
        invariant forall o :: o !in todo ==> AbsorbedRow(old(objectRefs), objectRefs, leafObjects, c, multiplicity, o)
        decreases todo
      {
        var o :| o in todo;
        todo := todo - {o};
        blocked := o;
        var row := leafObjects[(c, o)];
        objectRefs :- AbsorbObject(objectRefs, o, row, multiplicity);
      }
      return Ok(Done), 0;
    }

    ghost predicate Ready(order: seq<ManifestRef>, c: ManifestRef)
      reads this
    {
      c in chunks && c !in order && chunks[c].incoming == 0
    }

    /** Marks `c` processed once its multiplicity is pushed on and its objects are counted. */
    method MarkProcessed(store: Store, ghost roots: seq<ManifestRef>, ghost depth: nat, ghost order: seq<ManifestRef>,
                         c: ManifestRef, ghost before: ChunkTable)
      requires Graph(store, roots, before.Keys)
      requires c in before && before.Keys == chunks.Keys && PushedFrom(before, chunks, store, c)
      requires c !in order && before[c].incoming == 0
      requires var p := set x | x in order;
        && Remaining(before, store, p) && Flowing(before, store, roots, depth, p)
        && Counted(objectRefs, store, roots, depth, p + {c})
        && forall k | k in p :: before[k].incoming == 0
      requires EdgesGoForward(store, order) && Distinct(order)
      requires forall k | k in chunks :: chunks[k].multiplicity <= I64_MAX
      modifies this`chunks
      ensures chunks.Keys == before.Keys
      ensures Aggregating(store, roots, depth, order + [c])
      ensures forall k | k in before && before[k].incoming == 0 :: chunks[k].incoming == 0
    {
      hide Remaining, Flowing, Counted, Graph, EdgesGoForward, Distinct, PushedFrom, Finished;
      ghost var p := set x | x in order;
      OrderExtends(before, store, order, p, c);
      RemainingAfter(before, chunks, store, p, c);
      FlowingAfter(before, chunks, store, roots, depth, p, c);
      FinishedRows(before, chunks, store, c);
      chunks := Finished(chunks, c);
      assert (set x | x in order + [c]) == p + {c};
    }

    method ProcessNode(store: Store, ghost roots: seq<ManifestRef>, ghost depth: nat, ghost order: seq<ManifestRef>,
                       c: ManifestRef)
      returns (res: Result<Unit, IndexError>)
      requires Recorded(store, roots) && Aggregating(store, roots, depth, order) && Ready(order, c) && c.kind.Node?
      modifies this`chunks
      ensures chunks.Keys == old(chunks.Keys)
      ensures res.Ok? ==> Aggregating(store, roots, depth, order + [c])
      ensures res.Ok? ==> forall k | k in chunks && old(chunks)[k].incoming == 0 :: chunks[k].incoming == 0
      ensures res.Err? ==> res.error == Overflow && !Rebuildable(store, roots, depth)
    {
      hide Remaining, Flowing, Counted, Graph, EdgesGoForward, Distinct, PushedFrom, RowsOf, EdgeRows, Rebuildable;
      ghost var before, p := chunks, set x | x in order;
      RemainingFacts(chunks, store, p);
      GraphChunk(store, roots, chunks.Keys, c);
      NoUnderflow(chunks, store, p, c, c);
      NodeHoldsNoObjects(objectRefs, leafObjects, store, roots, depth, p, c) by {
        assert RowsOf(leafObjects, c, Held(store, chunks.Keys, NOBODY, [], c));
      }
      ghost var k;
      res, k := PushToChildren(store, c);
      if res.Err? {
        PushRefused(before, store, roots, depth, p, c, k);
        return;
      }
      MarkProcessed(store, roots, depth, order, c, before);
    }

    method ProcessLeaf(store: Store, ghost roots: seq<ManifestRef>, ghost depth: nat, ghost order: seq<ManifestRef>,
                       c: ManifestRef)
      returns (res: Result<Unit, IndexError>)
      requires Recorded(store, roots) && Aggregating(store, roots, depth, order) && Ready(order, c) && c.kind.Leaf?
      modifies this`chunks, this`objectRefs
      ensures chunks.Keys == old(chunks.Keys)
      ensures res.Ok? ==> Aggregating(store, roots, depth, order + [c])
      ensures res.Ok? ==> forall k | k in chunks && old(chunks)[k].incoming == 0 :: chunks[k].incoming == 0
      ensures res.Err? ==> res.error in {SizeConflict, Overflow} && !Rebuildable(store, roots, depth)
    {
      hide Remaining, Flowing, Counted, Graph, EdgesGoForward, Distinct, PushedFrom, RowsOf, EdgeRows, Rebuildable,
           Absorbed;
      ghost var p := set x | x in order;
      ghost var refs, m := objectRefs, chunks[c].multiplicity;
      assert RowsOf(leafObjects, c, Held(store, chunks.Keys, NOBODY, [], c));
      RemainingFacts(chunks, store, p);
      GraphChunk(store, roots, chunks.Keys, c);
      NothingPushed(chunks, store, c);
      if AllExpand(store, roots, depth) {
        ReadyIsExact(chunks, store, roots, depth, p, c);
      }
      ghost var o;
      res, o := AbsorbLeaf(store, c);
      if res.Err? {
        AbsorbRefused(refs, leafObjects, store, roots, depth, chunks.Keys, p, c, m, o);
        return;
      }
      CountedAfter(refs, objectRefs, leafObjects, store, roots, depth, p, c, m);
      MarkProcessed(store, roots, depth, order, c, chunks);
    }

    /** Processes one batch of ready chunks; none of them lists another, so all stay ready. */
    method ProcessBatch(store: Store, ghost roots: seq<ManifestRef>, ghost depth: nat, ghost order: seq<ManifestRef>,
                        ready: seq<ManifestRef>)
      returns (res: Result<Unit, IndexError>)
      requires Recorded(store, roots) && Aggregating(store, roots, depth, order)
      requires Distinct(ready) && forall c | c in ready :: Ready(order, c)
      modifies this`chunks, this`objectRefs
      ensures chunks.Keys == old(chunks.Keys)
      ensures res.Ok? ==> Aggregating(store, roots, depth, order + ready)
      ensures res.Err? ==> res.error in {SizeConflict, Overflow} && !Rebuildable(store, roots, depth)
    {
      hide Remaining, Flowing, Counted, Graph, EdgesGoForward, Rebuildable, EdgeRows, LeafRows, Aggregating;
      assert order + ready[..0] == order;
      for i := 0 to |ready|
        invariant chunks.Keys == old(chunks.Keys)
        invariant Aggregating(store, roots, depth, order + ready[..i])
        invariant forall c | c in ready[i..] :: Ready(order + ready[..i], c)
      {
        assert (order + ready[..i]) + [ready[i]] == order + ready[..i + 1];
        assert ready[i] in ready[i..];
        if ready[i].kind.Node? {
          var _ :- ProcessNode(store, roots, depth, order + ready[..i], ready[i]);
        } else {
          GraphChunk(store, roots, chunks.Keys, ready[i]);
          var _ :- ProcessLeaf(store, roots, depth, order + ready[..i], ready[i]);
        }
        ghost var rest := ready[i + 1..];
        forall c | c in rest
          ensures Ready(order + ready[..i + 1], c)
        {
          assert c in ready[i..];
        }
      }
      assert ready[..|ready|] == ready;
      return Ok(Done);
    }

    lemma Progress(store: Store, roots: seq<ManifestRef>, depth: nat, order: seq<ManifestRef>)
      requires Aggregating(store, roots, depth, order)
      ensures forall k | k in chunks :: chunks[k].discovered && (chunks[k].processed <==> k in order)
      ensures forall c | c in order :: c in chunks
      ensures |order| <= |chunks|
      ensures |order| == |chunks| <==> (set c | c in order) == chunks.Keys
    {
      hide Remaining, Flowing, Counted, EdgesGoForward;
      var p := set c | c in order;
      DistinctCount(order);
      RemainingFacts(chunks, store, p);
      PartCount(p, chunks.Keys);
    }

    /** Pushes multiplicities until no chunk is ready; chunks left over form a cycle. */
    method Aggregate(store: Store, ghost roots: seq<ManifestRef>, ghost depth: nat)
      returns (res: Result<Unit, IndexError>, ghost order: seq<ManifestRef>)
      requires Recorded(store, roots) && Aggregating(store, roots, depth, [])
      modifies this`chunks, this`objectRefs
      ensures chunks.Keys == old(chunks.Keys)
      ensures res.Ok? ==> Aggregating(store, roots, depth, order) && (set c | c in order) == chunks.Keys
      ensures res == Err(Cycle) ==> forall d: nat :: !AllExpand(store, roots, d)
      ensures res.Err? && res.error != Cycle ==>
        res.error in {SizeConflict, Overflow} && !Rebuildable(store, roots, depth)
    {
      hide Remaining, Flowing, Counted, Graph, EdgesGoForward, Distinct, Rebuildable, EdgeRows, LeafRows, AllExpand;
      order := [];
      var total := |chunks|;
      var processed := 0;
      Progress(store, roots, depth, order);
      var ready := ReadReady(READY_LIMIT);
      while ready != []
        invariant chunks.Keys == old(chunks.Keys)
        invariant Aggregating(store, roots, depth, order)
        invariant processed == |order| <= total == |chunks|
        invariant Distinct(ready) && forall c | c in ready :: Ready(order, c)
        invariant ready == [] ==> forall c | c in chunks :: c in order || chunks[c].incoming > 0
        decreases total - |order|
      {
        var _ :- ProcessBatch(store, roots, depth, order, ready);
        order := order + ready;
        processed := processed + |ready|;
        Progress(store, roots, depth, order);
        ready := ReadReady(READY_LIMIT);
      }
      Progress(store, roots, depth, order);
      if processed != total {
        ghost var p := set c | c in order;
        ghost var left := Leftover(p, chunks.Keys);
        forall d: nat
          ensures !AllExpand(store, roots, d)
        {
          StuckMeansCycle(chunks, store, roots, p, d);
        }
        return Err(Cycle), order;
      }
      return Ok(Done), order;
    }

    /** A discovered graph is ready for aggregation: nothing processed, nothing counted. */
    lemma DiscoveredIsRecorded(store: Store, roots: seq<ManifestRef>, depth: nat)
      requires Discovering(store, roots, chunks.Keys)
      ensures Recorded(store, roots) && Aggregating(store, roots, depth, [])
    {
      hide EdgeRows, LeafRows, ChunkRows, Remaining, Flowing, AllVisits, AllExpand;
      assert (set c: ManifestRef | c in []) == {};
      NothingProcessed(chunks, store, roots, depth);
      NothingCounted(store, roots, depth);
    }

    method QueueRoots(ghost store: Store, roots: seq<ManifestRef>, ghost depth: nat)
      returns (res: Result<Unit, IndexError>)
      requires Queued([])
      modifies this
      ensures res.Ok? ==> Queued(roots)
      ensures res.Err? ==> res.error == Overflow && !Rebuildable(store, roots, depth)
    {
      for i := 0 to |roots|
        invariant Queued(roots[..i])
      {
        assert roots[..i] + [roots[i]] == roots[..i + 1];
        if Rebuildable(store, roots, depth) {
          LastStep(store, roots, depth, roots[i]);
          PrefixCount(roots, roots[..i + 1], roots[i]);
          assert Multiplicity(store, roots, depth, roots[i]) <= I64_MAX;
        }
        var _ :- QueueRoot(roots[..i], roots[i]);
      }
      assert roots[..|roots|] == roots;
      return Ok(Done);
    }
  }

  /**
   Counts the objects of all snapshots whose manifests start at `roots`. Each chunk is loaded
   once, however many snapshots share it, and the result is the naive count.
   */
  method Rebuild(store: Store, roots: seq<ManifestRef>) returns (res: Result<Refs, IndexError>, loads: nat)
    ensures res.Ok? <==> exists d :: Rebuildable(store, roots, d)
    ensures res.Ok? ==> forall d | AllExpand(store, roots, d) ::
      Tallies(res.value, Expansion(store, roots, d)) && loads == |set c | c in AllVisits(store, roots, d)|
    ensures res.Err? && res.error in {Cycle, Unreadable} ==> forall d :: !AllExpand(store, roots, d)
    ensures res.Err? ==> res.error in {Cycle, Unreadable, SizeConflict, Overflow}
  {
    ghost var depth: nat := 0;
    if d :| AllExpand(store, roots, d) {
      depth := d;
    }
    loads := 0;
    var tables := new RebuildTables();
    var queued := tables.QueueRoots(store, roots, depth);
    if queued.Err? {
      NotRebuildable(store, roots, depth);
      return Err(queued.error), loads;
    }
    var discovered := tables.DiscoverGraph(store, roots, depth);
    if discovered.Err? {
      NotRebuildable(store, roots, depth);
      return Err(discovered.error), loads;
    }
    loads := discovered.value;
    tables.DiscoveredIsRecorded(store, roots, depth);
    var aggregated, order := tables.Aggregate(store, roots, depth);
    if aggregated.Err? {
      NotRebuildable(store, roots, depth);
      return Err(aggregated.error), loads;
    }
    RebuildFinished(tables.chunks, tables.objectRefs, store, roots, depth, order);
    return Ok(tables.objectRefs), loads;
  }
}
