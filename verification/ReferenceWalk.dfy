/**
 Walking the manifests of many snapshots with one visited set, as garbage collection
 (maintenance.rs) and verification (verify.rs) both do. A walk that fails part way leaves the
 visited set without the children of some visited chunk, so later walks may skip live chunks:
 only a run in which every walk succeeded says anything.
 */
module ReferenceWalk {
  import opened Outcomes
  import opened Manifests
  import opened Snapshots
  import opened ManifestShape

  /** `referenced` holds one of the sizes met for each object of `seen`; `conflicts` those with others. */
  ghost predicate Gathered(seen: set<Entry>, referenced: map<Digest, nat>, conflicts: seq<Digest>) {
    && (forall e | e in seen ::
      e.objectId in referenced && (referenced[e.objectId] == e.size || e.objectId in conflicts))
    && (forall o | o in referenced :: Met(seen, o, referenced[o]))
    && (forall o | o in conflicts :: o in referenced && exists size :: size != referenced[o] && Met(seen, o, size))
  }

  ghost predicate Met(seen: set<Entry>, o: Digest, size: nat) {
    exists e :: e in seen && e.objectId == o && e.size == size
  }

  /** All entries of some chunks. */
  ghost function EntriesOf(store: Store, chunks: set<ManifestRef>): set<Entry> {
    set c, e | c in chunks && e in Entries(store, c) :: e
  }

  /** Every entry below `rs` has a path the parser accepts. */
  ghost predicate PathsParse(store: Store, rs: seq<ManifestRef>, parses: string -> bool) {
    forall e | e in Expansion(store, rs, MAX_LEVELS) :: parses(e.path)
  }

  ghost predicate AllParse(seen: set<Entry>, parses: string -> bool) {
    forall e | e in seen :: parses(e.path)
  }

  lemma MetStays(seen: set<Entry>, e: Entry)
    ensures forall o, size | Met(seen, o, size) :: Met(seen + {e}, o, size)
    ensures Met(seen + {e}, e.objectId, e.size)
  {
    forall o, size | Met(seen, o, size)
      ensures Met(seen + {e}, o, size)
    {
      var f :| f in seen && f.objectId == o && f.size == size;
      assert f in seen + {e};
    }
    assert e in seen + {e};
  }

  class ReferenceCollector {
    var visited: set<ManifestRef>
    /** The first expected size met for each object. */
    var referenced: map<Digest, nat>
    /** Objects for which a different size was met later, once for every such entry. */
    var conflicts: seq<Digest>
    ghost var seen: set<Entry>
    const parses: string -> bool

    constructor (parses: string -> bool)
      ensures visited == {} && seen == {} && conflicts == [] && this.parses == parses && Valid()
    {
      this.parses := parses;
      visited, referenced, conflicts, seen := {}, map[], [], {};
    }

    ghost predicate Valid()
      reads this`seen, this`referenced, this`conflicts
    {
      Gathered(seen, referenced, conflicts) && AllParse(seen, parses)
    }

    /** What the walks have gathered is exactly what `roots` lead to. */
    ghost predicate Complete(store: Store, roots: seq<ManifestRef>)
      reads this
    {
      Graph(store, roots, visited) && seen == EntriesOf(store, visited)
    }

    method Reference(e: Entry)
      requires Valid() && parses(e.path)
      modifies this`referenced, this`conflicts, this`seen
      ensures Valid() && seen == old(seen) + {e} && old(conflicts) <= conflicts
    {
      MetStays(seen, e);
      seen := seen + {e};
      if e.objectId !in referenced {
        referenced := referenced[e.objectId := e.size];
      } else if referenced[e.objectId] != e.size {
        conflicts := conflicts + [e.objectId];
      }
    }

    /** References the entries of one leaf; a path that does not parse ends the walk. */
    method ReferenceLeaf(entries: seq<Entry>) returns (ok: bool)
      requires Valid()
      modifies this`referenced, this`conflicts, this`seen
      ensures Valid() && old(conflicts) <= conflicts
      ensures ok ==> seen == old(seen) + set e | e in entries
      ensures !ok ==> exists e :: e in entries && !parses(e.path)
    {
      hide Valid;
      for i := 0 to |entries|
        invariant Valid() && old(conflicts) <= conflicts
        invariant seen == old(seen) + set e | e in entries[..i]
      {
        if !parses(entries[i].path) {
          return false;
        }
        Reference(entries[i]);
        assert entries[..i + 1] == entries[..i] + [entries[i]];
      }
      assert entries[..|entries|] == entries;
      return true;
    }

    lemma WalkBegins(store: Store, roots: seq<ManifestRef>, root: Option<ManifestRef>)
      requires Complete(store, roots)
      ensures Walking(store, roots + RootOf(root), visited, RootOf(root), seen)
    {
      var all := roots + RootOf(root);
      forall t | Closed(store, t) && forall r | r in all :: r in t
        ensures visited + (set c | c in RootOf(root)) <= t
      {
        assert forall r | r in roots :: r in all;
        assert forall r | r in RootOf(root) :: r in all;
      }
    }

    lemma WalkEnds(store: Store, roots: seq<ManifestRef>, root: Option<ManifestRef>)
      requires Walking(store, roots + RootOf(root), visited, [], seen)
      ensures Complete(store, roots + RootOf(root))
    {
      var none := set c: ManifestRef | c in [];
      assert visited + none == visited;
    }

    lemma PathsOfWalk(store: Store, roots: seq<ManifestRef>, root: Option<ManifestRef>)
      requires Valid() && Complete(store, roots + RootOf(root))
      ensures PathsParse(store, RootOf(root), parses)
    {
      var rs := RootOf(root);
      VisitsWithin(store, rs, MAX_LEVELS, visited);
      forall e | e in Expansion(store, rs, MAX_LEVELS)
        ensures parses(e.path)
      {
        FlattenMembers(store, AllVisits(store, rs, MAX_LEVELS), e);
        var c :| c in AllVisits(store, rs, MAX_LEVELS) && e in Entries(store, c);
        assert c in visited && e in seen;
      }
    }

    /**
     Walks one manifest, skipping chunks visited before. `roots` are those of earlier walks that
     all succeeded; the walk fails only on an unreadable chunk or an unacceptable path.
     */
    method Walk(store: Store, root: Option<ManifestRef>, ghost roots: seq<ManifestRef>, ghost clean: bool)
      returns (ok: bool)
      requires Valid() && (clean ==> Complete(store, roots))
      modifies this
      ensures Valid() && old(conflicts) <= conflicts
      ensures ok && clean ==> Complete(store, roots + RootOf(root)) && PathsParse(store, RootOf(root), parses)
      ensures !ok ==> !(AllExpand(store, RootOf(root), MAX_LEVELS) && PathsParse(store, RootOf(root), parses))
    {
      hide Walking, PendingBelow, Valid, PathsParse, Complete;
      var pending := RootOf(root);
      if clean {
        WalkBegins(store, roots, root);
      }
      BelowBegins(store, pending);
      while pending != []
        invariant Valid() && old(conflicts) <= conflicts
        invariant clean ==> Walking(store, roots + RootOf(root), visited, pending, seen)
        invariant PendingBelow(store, RootOf(root), pending)
        decreases store.Keys - visited, |pending|
      {
        var reference := pending[|pending| - 1];
        ghost var before := pending;
        pending := pending[..|pending| - 1];
        StepBelow(store, RootOf(root), before);
        if reference in visited {
          if clean {
            StepOverVisited(store, roots + RootOf(root), visited, before, seen);
          }
          continue;
        }
        if !Readable(store, reference) {
          return false;
        }
        if clean {
          StepInto(store, roots + RootOf(root), visited, before, seen);
        }
        // A node has children and no entries, a leaf the reverse.
        visited := visited + {reference};
        pending := pending + Children(store, reference);
        var leafOk := ReferenceLeaf(Entries(store, reference));
        if !leafOk {
          BadPathBelow(store, RootOf(root), before, parses);
          return false;
        }
      }
      if clean {
        WalkEnds(store, roots, root);
        PathsOfWalk(store, roots, root);
      }
      return true;
    }
  }

  /** The pending chunks are met when the root is expanded. */
  ghost predicate PendingBelow(store: Store, rs: seq<ManifestRef>, pending: seq<ManifestRef>) {
    AllExpand(store, rs, MAX_LEVELS) ==> forall c | c in pending :: c in AllVisits(store, rs, MAX_LEVELS)
  }

  /** Everything visited is readable and reachable; what is missing is pending. */
  ghost predicate Walking(store: Store, roots: seq<ManifestRef>, visited: set<ManifestRef>, pending: seq<ManifestRef>,
                          seen: set<Entry>)
  {
    && (forall r | r in roots :: r in visited || r in pending)
    && (forall c | c in visited :: Readable(store, c) && ChildrenKnown(store, c, visited, pending))
    && OnlyReachable(store, roots, visited + set c | c in pending)
    && seen == EntriesOf(store, visited)
  }

  ghost predicate ChildrenKnown(store: Store, c: ManifestRef, visited: set<ManifestRef>, pending: seq<ManifestRef>) {
    forall k | k in Children(store, c) :: k in visited || k in pending
  }

  lemma StepOverVisited(store: Store, roots: seq<ManifestRef>, visited: set<ManifestRef>, pending: seq<ManifestRef>,
                        seen: set<Entry>)
    requires Walking(store, roots, visited, pending, seen) && pending != [] && pending[|pending| - 1] in visited
    ensures Walking(store, roots, visited, pending[..|pending| - 1], seen)
  {
    var rest := pending[..|pending| - 1];
    assert forall c | c in pending :: c in rest || c in visited;
    assert visited + (set c | c in rest) <= visited + set c | c in pending;
  }

  lemma StepInto(store: Store, roots: seq<ManifestRef>, visited: set<ManifestRef>, pending: seq<ManifestRef>,
                 seen: set<Entry>)
    requires Walking(store, roots, visited, pending, seen) && pending != [] && Readable(store, pending[|pending| - 1])
    ensures var c := pending[|pending| - 1];
      Walking(store, roots, visited + {c}, pending[..|pending| - 1] + Children(store, c),
        seen + set e | e in Entries(store, c))
  {
    var c, rest := pending[|pending| - 1], pending[..|pending| - 1];
    var next := rest + Children(store, c);
    assert forall x | x in pending :: x == c || x in rest;
    forall q | q in visited + {c}
      ensures ChildrenKnown(store, q, visited + {c}, next)
    {
    }
    forall t | Closed(store, t) && forall r | r in roots :: r in t
      ensures visited + {c} + (set x | x in next) <= t
    {
      assert c in (set x | x in pending);
      assert forall x | x in rest :: x in (set y | y in pending);
    }
  }

  lemma BelowBegins(store: Store, rs: seq<ManifestRef>)
    ensures PendingBelow(store, rs, rs)
  {
    if AllExpand(store, rs, MAX_LEVELS) {
      VisitsClosed(store, rs, MAX_LEVELS);
    }
  }

  lemma StepBelow(store: Store, rs: seq<ManifestRef>, pending: seq<ManifestRef>)
    requires PendingBelow(store, rs, pending) && pending != []
    ensures var c := pending[|pending| - 1];
      && PendingBelow(store, rs, pending[..|pending| - 1])
      && PendingBelow(store, rs, pending[..|pending| - 1] + Children(store, c))
      && (AllExpand(store, rs, MAX_LEVELS) ==> Readable(store, c))
  {
    if AllExpand(store, rs, MAX_LEVELS) {
      var c := pending[|pending| - 1];
      VisitsClosed(store, rs, MAX_LEVELS);
      assert c in (set x | x in AllVisits(store, rs, MAX_LEVELS));
    }
  }

  lemma BadPathBelow(store: Store, rs: seq<ManifestRef>, pending: seq<ManifestRef>, parses: string -> bool)
    requires PendingBelow(store, rs, pending) && pending != []
    requires exists e :: e in Entries(store, pending[|pending| - 1]) && !parses(e.path)
    ensures !(AllExpand(store, rs, MAX_LEVELS) && PathsParse(store, rs, parses))
  {
    var c := pending[|pending| - 1];
    if AllExpand(store, rs, MAX_LEVELS) {
      VisitedEntries(store, rs, MAX_LEVELS, c);
    }
  }

  // ---------------------------------------------------------------- many snapshots

  /** The snapshot reads, belongs here, is accepted by a fresh validator and has acceptable paths. */
  ghost predicate SnapshotHealthy(store: Store, rules: ManifestRules, s: SnapshotRoot, parses: string -> bool) {
    Acceptable(store, rules, s) && s.ownProject && PathsParse(store, RootsOf(s), parses)
  }

  ghost predicate AllHealthy(store: Store, rules: ManifestRules, snapshots: seq<SnapshotRoot>, parses: string -> bool) {
    forall s | s in snapshots :: SnapshotHealthy(store, rules, s, parses)
  }

  predicate Present(objects: map<Digest, nat>, e: Entry) {
    e.objectId in objects && objects[e.objectId] == e.size
  }

  lemma NoRootsNoGraph(store: Store)
    ensures Graph(store, [], {}) && EntriesOf(store, {}) == {}
  {
  }

  lemma HealthyStep(store: Store, rules: ManifestRules, snapshots: seq<SnapshotRoot>, parses: string -> bool, i: nat)
    requires i < |snapshots|
    ensures AllHealthy(store, rules, snapshots[..i + 1], parses)
       <==> AllHealthy(store, rules, snapshots[..i], parses) && SnapshotHealthy(store, rules, snapshots[i], parses)
  {
    hide SnapshotHealthy;
    var longer := snapshots[..i + 1];
    assert longer == snapshots[..i] + [snapshots[i]];
    assert snapshots[i] == longer[i] && snapshots[i] in longer;
    assert forall s | s in snapshots[..i] :: s in longer;
  }

  /** Every snapshot is healthy and found room in the cache it shares with those before it. */
  ghost predicate AllMark(store: Store, rules: ManifestRules, snapshots: seq<SnapshotRoot>, parses: string -> bool) {
    AllHealthy(store, rules, snapshots, parses) && NoOverflow(store, rules, snapshots)
  }

  /** One more snapshot is healthy and finds room beside those marked before. */
  ghost predicate Joins(store: Store, rules: ManifestRules, before: seq<SnapshotRoot>, s: SnapshotRoot,
                        parses: string -> bool)
  {
    SnapshotHealthy(store, rules, s, parses) && HasRoom(store, rules, before, s)
  }

  lemma OneMoreMarks(store: Store, rules: ManifestRules, snapshots: seq<SnapshotRoot>, parses: string -> bool, i: nat)
    requires i < |snapshots|
    ensures AllMark(store, rules, snapshots[..i + 1], parses)
       <==> AllMark(store, rules, snapshots[..i], parses) && Joins(store, rules, snapshots[..i], snapshots[i], parses)
  {
    hide AllHealthy, SnapshotHealthy, Fits, ChunksOf, SharedCache, NoOverflow;
    HealthyStep(store, rules, snapshots, parses, i);
    OneMoreCached(store, rules, snapshots, i);
  }

  lemma NothingToMark(store: Store, rules: ManifestRules, parses: string -> bool)
    ensures AllMark(store, rules, [], parses) && SharedCache(store, rules, []) == {}
  {
  }

  lemma EntriesAreExpansion(store: Store, roots: seq<ManifestRef>)
    ensures EntriesOf(store, set c | c in AllVisits(store, roots, MAX_LEVELS))
      == set e | e in Expansion(store, roots, MAX_LEVELS)
  {
    var visits := AllVisits(store, roots, MAX_LEVELS);
    forall e: Entry
      ensures e in EntriesOf(store, set c | c in visits) <==> e in Expansion(store, roots, MAX_LEVELS)
    {
      FlattenMembers(store, visits, e);
    }
  }

  lemma ConflictIsAbsence(seen: set<Entry>, referenced: map<Digest, nat>, conflicts: seq<Digest>,
                          objects: map<Digest, nat>, o: Digest)
    requires Gathered(seen, referenced, conflicts) && o in conflicts
    ensures exists e :: e in seen && !Present(objects, e)
  {
    var size :| size != referenced[o] && Met(seen, o, size);
    var e :| e in seen && e.objectId == o && e.size == size;
    assert Met(seen, o, referenced[o]);
    var f :| f in seen && f.objectId == o && f.size == referenced[o];
    assert !Present(objects, e) || !Present(objects, f);
  }

  /** One size per object and no conflict is the same as every entry having its size. */
  lemma ReferencesDecide(seen: set<Entry>, referenced: map<Digest, nat>, conflicts: seq<Digest>,
                         objects: map<Digest, nat>)
    requires Gathered(seen, referenced, conflicts)
    ensures (conflicts == [] && forall o | o in referenced :: o in objects && objects[o] == referenced[o])
       <==> forall e | e in seen :: Present(objects, e)
    ensures referenced.Keys == set e | e in seen :: e.objectId
  {
    if forall e | e in seen :: Present(objects, e) {
      forall o | o in referenced
        ensures o in objects && objects[o] == referenced[o]
      {
        assert Met(seen, o, referenced[o]);
      }
    }
    if conflicts != [] {
      ConflictIsAbsence(seen, referenced, conflicts, objects, conflicts[0]);
    }
    forall o | o in referenced
      ensures exists e :: e in seen && e.objectId == o
    {
      assert Met(seen, o, referenced[o]);
    }
  }
}
