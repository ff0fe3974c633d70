/**
 The derived snapshot index kept up to date one snapshot at a time (db.rs). Each change is one
 transaction: it takes effect as a whole or not at all. The specification is the set of live
 snapshots; the tables are determined by it, so they equal what a rebuild would produce.
 */
module SnapshotIndex {
  import opened Outcomes
  import opened Sums
  import opened Manifests
  import opened ObjectRefs

  type SnapshotId = Digest

  datatype SnapshotFile = SnapshotFile(
    project: Digest, createdAt: string, name: string, parent: Option<SnapshotId>, files: seq<Entry>)

  datatype SummaryRow = SummaryRow(
    project: Digest, createdAt: string, name: string, parent: Option<SnapshotId>, fileCount: nat, logicalSize: nat)

  type Live = map<SnapshotId, SnapshotFile>

  function LogicalSize(files: seq<Entry>): nat {
    SumSeq(files, (e: Entry) => e.size)
  }

  function Summary(s: SnapshotFile): SummaryRow {
    SummaryRow(s.project, s.createdAt, s.name, s.parent, |s.files|, LogicalSize(s.files))
  }

  // ---------------------------------------------------------------- what the tables should hold

  ghost function HeldBy(live: Live, o: Digest): SnapshotId -> nat {
    id => if id in live then Occurrences(live[id].files, o) else 0
  }

  /** Occurrences of `o` in all live snapshots together. */
  ghost function Total(live: Live, o: Digest): nat {
    Sum(live.Keys, HeldBy(live, o))
  }

  /** One summary row per live snapshot, one row per referenced object, nothing else. */
  ghost predicate Describes(snapshots: map<SnapshotId, SummaryRow>, refs: Refs, live: Live) {
    && snapshots.Keys == live.Keys
    && (forall id | id in live :: snapshots[id] == Summary(live[id]))
    && (forall o :: CountIn(refs, o) == Total(live, o))
    && (forall o | o in refs :: refs[o].count > 0)
    && (forall id, e | id in live && e in live[id].files :: e.objectId in refs && refs[e.objectId].size == e.size)
  }

  lemma TotalPositive(live: Live, o: Digest)
    ensures Total(live, o) > 0 <==> exists id, e :: id in live && e in live[id].files && e.objectId == o
  {
    SumZero(live.Keys, HeldBy(live, o));
    if Total(live, o) > 0 {
      var id :| id in live.Keys && HeldBy(live, o)(id) > 0;
      OccurrencesPositive(live[id].files, o);
      var e :| e in live[id].files && e.objectId == o;
      assert id in live && e in live[id].files && e.objectId == o;
    }
    if id, e :| id in live && e in live[id].files && e.objectId == o {
      OccurrencesPositive(live[id].files, o);
      assert HeldBy(live, o)(id) > 0;
    }
  }

  /** The live snapshots determine the tables completely. */
  lemma DescriptionIsUnique(s: map<SnapshotId, SummaryRow>, r: Refs, t: map<SnapshotId, SummaryRow>, q: Refs,
                            live: Live)
    requires Describes(s, r, live) && Describes(t, q, live)
    ensures s == t && r == q
  {
    forall o
      ensures o in r <==> o in q
      ensures o in r ==> r[o] == q[o]
    {
      assert CountIn(r, o) == CountIn(q, o);
      if o in r {
        TotalPositive(live, o);
        var id, e :| id in live && e in live[id].files && e.objectId == o;
        assert r[e.objectId].size == e.size == q[e.objectId].size;
      }
    }
  }

  lemma TotalAdd(live: Live, id: SnapshotId, s: SnapshotFile, o: Digest)
    requires id !in live
    ensures Total(live[id := s], o) == Total(live, o) + Occurrences(s.files, o)
  {
    var next := live[id := s];
    assert next.Keys == live.Keys + {id};
    SumAdd(live.Keys, id, HeldBy(next, o));
    SumSame(live.Keys, HeldBy(next, o), HeldBy(live, o));
  }

  lemma TotalRemove(live: Live, id: SnapshotId, o: Digest)
    requires id in live
    ensures Total(live, o) == Total(live - {id}, o) + Occurrences(live[id].files, o)
  {
    assert (live - {id})[id := live[id]] == live;
    TotalAdd(live - {id}, id, live[id], o);
  }

  // ---------------------------------------------------------------- rebuilds describe the same tables

  /** The manifest of each snapshot in `ids`, in that order; an empty snapshot has none. */
  function ManifestRoots(ids: seq<SnapshotId>, manifests: map<SnapshotId, ManifestRef>): seq<ManifestRef> {
    if ids == [] then []
    else (if ids[0] in manifests then [manifests[ids[0]]] else []) + ManifestRoots(ids[1..], manifests)
  }

  function IdSet(ids: seq<SnapshotId>): set<SnapshotId> {
    set id: SnapshotId | id in ids
  }

  /** The files of one snapshot in the order its manifest lists them. */
  ghost function ManifestFiles(store: Store, manifests: map<SnapshotId, ManifestRef>, depth: nat,
                               id: SnapshotId): seq<Entry>
  {
    Expansion(store, ManifestRoots([id], manifests), depth)
  }

  /**
   `manifests` stores the files of every live snapshot. A manifest lists them by portable key, the
   snapshot by exact path, so the two lists are permutations of each other.
   */
  ghost predicate Stores(store: Store, manifests: map<SnapshotId, ManifestRef>, live: Live, depth: nat) {
    forall id | id in live ::
      && (id in manifests ==> Expands(store, manifests[id], depth))
      && multiset(ManifestFiles(store, manifests, depth, id)) == multiset(live[id].files)
  }

  /** The live snapshots with their files as the manifests list them. */
  ghost function AsStored(store: Store, manifests: map<SnapshotId, ManifestRef>, live: Live, depth: nat): Live {
    map id | id in live :: live[id].(files := ManifestFiles(store, manifests, depth, id))
  }

  /** The rows a rebuild writes: each root's own totals, which validation checks against its manifest. */
  ghost function RebuiltRows(store: Store, manifests: map<SnapshotId, ManifestRef>, live: Live,
                             depth: nat): map<SnapshotId, SummaryRow>
  {
    map id | id in live :: Summary(AsStored(store, manifests, live, depth)[id])
  }

  ghost predicate InManifestOrder(store: Store, manifests: map<SnapshotId, ManifestRef>, live: Live, depth: nat) {
    forall id | id in live ::
      if id in manifests then
        Expands(store, manifests[id], depth) && Expansion(store, [manifests[id]], depth) == live[id].files
      else
        live[id].files == []
  }

  lemma OneRoot(id: SnapshotId, manifests: map<SnapshotId, ManifestRef>)
    ensures ManifestRoots([id], manifests) == if id in manifests then [manifests[id]] else []
  {
    assert [id][1..] == [];
  }

  lemma StoredInOrder(store: Store, manifests: map<SnapshotId, ManifestRef>, live: Live, depth: nat)
    requires Stores(store, manifests, live, depth)
    ensures InManifestOrder(store, manifests, AsStored(store, manifests, live, depth), depth)
  {
    hide Expands, ManifestRoots, AllVisits;
    forall id | id in live
      ensures ManifestFiles(store, manifests, depth, id)
        == if id in manifests then Expansion(store, [manifests[id]], depth) else []
    {
      OneRoot(id, manifests);
      NoFiles(store, depth);
    }
  }

  lemma NoFiles(store: Store, depth: nat)
    ensures Expansion(store, [], depth) == []
  {
  }

  lemma {:induction false} OccurrencesAreASum(files: seq<Entry>, o: Digest)
    ensures Occurrences(files, o) == SumSeq(files, (e: Entry) => if e.objectId == o then 1 else 0)
  {
    if files != [] {
      OccurrencesAreASum(files[1..], o);
    }
  }

  /** Neither counts nor totals depend on the order of a file list. */
  lemma OrderIrrelevant(a: seq<Entry>, b: seq<Entry>)
    requires multiset(a) == multiset(b)
    ensures |a| == |b| && LogicalSize(a) == LogicalSize(b)
    ensures forall o :: Occurrences(a, o) == Occurrences(b, o)
    ensures forall e :: e in a <==> e in b
  {
    assert |a| == |multiset(a)| && |b| == |multiset(b)|;
    SumSeqPermuted(a, b, (e: Entry) => e.size);
    forall o
      ensures Occurrences(a, o) == Occurrences(b, o)
    {
      OccurrencesAreASum(a, o);
      OccurrencesAreASum(b, o);
      SumSeqPermuted(a, b, (e: Entry) => if e.objectId == o then 1 else 0);
    }
    forall e: Entry
      ensures e in a <==> e in b
    {
      assert e in a <==> e in multiset(a);
      assert e in b <==> e in multiset(b);
    }
  }

  ghost predicate SamePermuted(a: SnapshotFile, b: SnapshotFile) {
    multiset(a.files) == multiset(b.files) && a == b.(files := a.files)
  }

  lemma DescribesPermuted(rows: map<SnapshotId, SummaryRow>, refs: Refs, live: Live, other: Live)
    requires Describes(rows, refs, live) && other.Keys == live.Keys
    requires forall id | id in live :: SamePermuted(other[id], live[id])
    ensures Describes(rows, refs, other)
  {
    forall id | id in live
      ensures Summary(other[id]) == Summary(live[id])
      ensures forall o :: Occurrences(other[id].files, o) == Occurrences(live[id].files, o)
      ensures forall e :: e in other[id].files <==> e in live[id].files
    {
      assert SamePermuted(other[id], live[id]);
      OrderIrrelevant(other[id].files, live[id].files);
    }
    forall o
      ensures Total(other, o) == Total(live, o)
    {
      SumSame(live.Keys, HeldBy(other, o), HeldBy(live, o));
    }
  }

  lemma RootsStep(store: Store, manifests: map<SnapshotId, ManifestRef>, live: Live, depth: nat, ids: seq<SnapshotId>)
    requires InManifestOrder(store, manifests, live, depth) && ids != [] && ids[0] in live
    requires AllExpand(store, ManifestRoots(ids[1..], manifests), depth)
    ensures AllExpand(store, ManifestRoots(ids, manifests), depth)
    ensures Expansion(store, ManifestRoots(ids, manifests), depth)
         == live[ids[0]].files + Expansion(store, ManifestRoots(ids[1..], manifests), depth)
  {
    var id, below := ids[0], ManifestRoots(ids[1..], manifests);
    if id in manifests {
      ExpansionConcat(store, [manifests[id]], below, depth);
    } else {
      assert [] + below == below;
    }
  }

  lemma {:induction false} ExpansionOfRoots(store: Store, manifests: map<SnapshotId, ManifestRef>, live: Live,
                                            depth: nat, ids: seq<SnapshotId>, o: Digest)
    requires InManifestOrder(store, manifests, live, depth)
    requires forall i, j | 0 <= i < j < |ids| :: ids[i] != ids[j]
    requires forall id | id in ids :: id in live
    ensures AllExpand(store, ManifestRoots(ids, manifests), depth)
    ensures Occurrences(Expansion(store, ManifestRoots(ids, manifests), depth), o)
         == Sum(IdSet(ids), HeldBy(live, o))
  {
    if ids == [] {
      assert IdSet(ids) == {};
    } else {
      var id, rest := ids[0], ids[1..];
      ExpansionOfRoots(store, manifests, live, depth, rest, o);
      RootsStep(store, manifests, live, depth, ids);
      OccurrencesConcat(live[id].files, Expansion(store, ManifestRoots(rest, manifests), depth), o);
      assert IdSet(ids) == IdSet(rest) + {id};
      SumAdd(IdSet(rest), id, HeldBy(live, o));
    }
  }

  lemma {:induction false} FilesAreExpanded(store: Store, manifests: map<SnapshotId, ManifestRef>, live: Live,
                                            depth: nat, ids: seq<SnapshotId>, id: SnapshotId, e: Entry)
    requires InManifestOrder(store, manifests, live, depth)
    requires forall x | x in ids :: x in live
    requires id in ids && e in live[id].files
    ensures AllExpand(store, ManifestRoots(ids[1..], manifests), depth)
    ensures e in Expansion(store, ManifestRoots(ids, manifests), depth)
  {
    RootsExpand(store, manifests, live, depth, ids[1..]);
    RootsStep(store, manifests, live, depth, ids);
    if id != ids[0] {
      FilesAreExpanded(store, manifests, live, depth, ids[1..], id, e);
    }
  }

  lemma {:induction false} RootsExpand(store: Store, manifests: map<SnapshotId, ManifestRef>, live: Live, depth: nat,
                                       ids: seq<SnapshotId>)
    requires InManifestOrder(store, manifests, live, depth)
    requires forall x | x in ids :: x in live
    ensures AllExpand(store, ManifestRoots(ids, manifests), depth)
  {
    if ids != [] {
      RootsExpand(store, manifests, live, depth, ids[1..]);
      RootsStep(store, manifests, live, depth, ids);
    }
  }

  lemma StoredRebuildDescribes(store: Store, manifests: map<SnapshotId, ManifestRef>, live: Live, depth: nat,
                               ids: seq<SnapshotId>, refs: Refs, snapshots: map<SnapshotId, SummaryRow>)
    requires InManifestOrder(store, manifests, live, depth)
    requires forall i, j | 0 <= i < j < |ids| :: ids[i] != ids[j]
    requires IdSet(ids) == live.Keys
    requires Tallies(refs, Expansion(store, ManifestRoots(ids, manifests), depth))
    requires snapshots == map id | id in live :: Summary(live[id])
    ensures Describes(snapshots, refs, live)
  {
    var all := Expansion(store, ManifestRoots(ids, manifests), depth);
    forall id | id in ids
      ensures id in live
    {
      assert id in IdSet(ids);
    }
    forall o: Digest
      ensures CountIn(refs, o) == Total(live, o)
    {
      ExpansionOfRoots(store, manifests, live, depth, ids, o);
    }
    forall id, e | id in live && e in live[id].files
      ensures e.objectId in refs && refs[e.objectId].size == e.size
    {
      assert id in IdSet(ids);
      FilesAreExpanded(store, manifests, live, depth, ids, id, e);
      assert e in all;
    }
  }

  lemma StoredIsPermuted(store: Store, manifests: map<SnapshotId, ManifestRef>, live: Live, depth: nat)
    requires Stores(store, manifests, live, depth)
    ensures var stored := AsStored(store, manifests, live, depth);
      && stored.Keys == live.Keys
      && (forall id | id in stored :: SamePermuted(live[id], stored[id]))
      && RebuiltRows(store, manifests, live, depth) == map id | id in stored :: Summary(stored[id])
  {
    hide ManifestFiles, Summary, Expands;
  }

  /** Counting the manifests of all live snapshots gives the rows the incremental index keeps. */
  lemma RebuildDescribes(store: Store, manifests: map<SnapshotId, ManifestRef>, live: Live, depth: nat,
                         ids: seq<SnapshotId>, refs: Refs)
    requires Stores(store, manifests, live, depth)
    requires forall i, j | 0 <= i < j < |ids| :: ids[i] != ids[j]
    requires IdSet(ids) == live.Keys
    requires Tallies(refs, Expansion(store, ManifestRoots(ids, manifests), depth))
    ensures Describes(RebuiltRows(store, manifests, live, depth), refs, live)
  {
    hide *;
    var stored, rows := AsStored(store, manifests, live, depth), RebuiltRows(store, manifests, live, depth);
    StoredInOrder(store, manifests, live, depth);
    StoredIsPermuted(store, manifests, live, depth);
    StoredRebuildDescribes(store, manifests, stored, depth, ids, refs, rows);
    DescribesPermuted(rows, refs, stored, live);
  }

  // ---------------------------------------------------------------- one snapshot at a time

  /** The references of one more list of files, added to every row it touches. */
  function AddFiles(refs: Refs, files: seq<Entry>): Refs {
    map o | o in refs.Keys + Objects(files) ::
      ObjectRow(SizeOf(refs, files, o), CountIn(refs, o) + Occurrences(files, o))
  }

  function Objects(files: seq<Entry>): set<Digest> {
    set e | e in files :: e.objectId
  }

  function SizeOf(refs: Refs, files: seq<Entry>, o: Digest): nat {
    if o in refs then refs[o].size
    else if files == [] then 0
    else if files[0].objectId == o then files[0].size
    else SizeOf(refs, files[1..], o)
  }

  /** The files agree with each other and with the table, and the new counts fit. */
  ghost predicate CanAdd(refs: Refs, files: seq<Entry>) {
    && SizesAgree(files)
    && forall e | e in files ::
         && e.size <= I64_MAX && (e.objectId in refs ==> refs[e.objectId].size == e.size)
         && CountIn(refs, e.objectId) + Occurrences(files, e.objectId) <= I64_MAX
  }

  /** The references of a list of files taken away; rows that reach zero disappear. */
  function RemoveFiles(refs: Refs, files: seq<Entry>): Refs {
    map o | o in refs && (o !in Objects(files) || refs[o].count > Occurrences(files, o)) ::
      refs[o].(count := if refs[o].count >= Occurrences(files, o) then refs[o].count - Occurrences(files, o) else 0)
  }

  ghost predicate CanRemove(refs: Refs, files: seq<Entry>) {
    && SizesAgree(files)
    && forall e | e in files ::
         && e.size <= I64_MAX && e.objectId in refs && refs[e.objectId].size == e.size
         && Occurrences(files, e.objectId) <= refs[e.objectId].count
  }

  lemma {:induction false} SizeOfEntry(refs: Refs, files: seq<Entry>, e: Entry)
    requires SizesAgree(files) && e in files && (e.objectId in refs ==> refs[e.objectId].size == e.size)
    ensures SizeOf(refs, files, e.objectId) == e.size
  {
    if e.objectId !in refs && files[0].objectId != e.objectId {
      assert e in files[1..];
      SizeOfEntry(refs, files[1..], e);
    } else if e.objectId !in refs {
      assert files[0] in files;
    }
  }

  /** Removing what was just added restores every row, whatever the table counted before. */
  lemma InsertThenDelete(refs: Refs, files: seq<Entry>)
    requires CanAdd(refs, files)
    requires forall o | o in refs :: refs[o].count > 0
    ensures CanRemove(AddFiles(refs, files), files)
    ensures RemoveFiles(AddFiles(refs, files), files) == refs
  {
    var added := AddFiles(refs, files);
    forall e | e in files
      ensures e.objectId in added && added[e.objectId].size == e.size
    {
      SizeOfEntry(refs, files, e);
    }
    forall o: Digest
      ensures o in Objects(files) <==> Occurrences(files, o) > 0
    {
      OccurrencesPositive(files, o);
    }
    var removed := RemoveFiles(added, files);
    assert removed.Keys == refs.Keys;
    assert forall o | o in refs :: removed[o] == refs[o];
  }

  lemma AddedRow(refs: Refs, files: seq<Entry>, o: Digest)
    ensures CountIn(AddFiles(refs, files), o) == CountIn(refs, o) + Occurrences(files, o)
    ensures o in AddFiles(refs, files) ==> o in refs || Occurrences(files, o) > 0
  {
    OccurrencesPositive(files, o);
  }

  lemma AddedSizes(refs: Refs, files: seq<Entry>)
    requires CanAdd(refs, files)
    ensures forall e | e in files ::
      e.objectId in AddFiles(refs, files) && AddFiles(refs, files)[e.objectId].size == e.size
    ensures forall o | o in refs :: o in AddFiles(refs, files) && AddFiles(refs, files)[o].size == refs[o].size
  {
    forall e | e in files
      ensures e.objectId in AddFiles(refs, files) && AddFiles(refs, files)[e.objectId].size == e.size
    {
      SizeOfEntry(refs, files, e);
    }
  }

  lemma AddedToNothing(files: seq<Entry>)
    requires SizesAgree(files) && (forall e | e in files :: e.size <= I64_MAX)
    requires forall o :: Occurrences(files, o) <= I64_MAX
    ensures Tallies(AddFiles(map[], files), files)
  {
    AddedSizes(map[], files);
    forall o: Digest
      ensures o in AddFiles(map[], files) <==> Occurrences(files, o) > 0
      ensures o in AddFiles(map[], files) ==> AddFiles(map[], files)[o].count == Occurrences(files, o)
    {
      AddedRow(map[], files, o);
      OccurrencesPositive(files, o);
    }
  }

  lemma InsertDescribes(snapshots: map<SnapshotId, SummaryRow>, refs: Refs, live: Live, id: SnapshotId, s: SnapshotFile)
    requires Describes(snapshots, refs, live) && id !in live && CanAdd(refs, s.files)
    ensures Describes(snapshots[id := Summary(s)], AddFiles(refs, s.files), live[id := s])
  {
    hide AddFiles, CanAdd, Total, Summary, Occurrences;
    AddedSizes(refs, s.files);
    forall o: Digest
      ensures CountIn(AddFiles(refs, s.files), o) == Total(live[id := s], o)
    {
      AddedRow(refs, s.files, o);
      TotalAdd(live, id, s, o);
    }
    forall o | o in AddFiles(refs, s.files)
      ensures AddFiles(refs, s.files)[o].count > 0
    {
      AddedRow(refs, s.files, o);
    }
  }

  lemma RemovedRow(refs: Refs, files: seq<Entry>, o: Digest)
    requires Occurrences(files, o) <= CountIn(refs, o)
    ensures CountIn(RemoveFiles(refs, files), o) == CountIn(refs, o) - Occurrences(files, o)
    ensures o in refs && CountIn(refs, o) > Occurrences(files, o) ==>
      o in RemoveFiles(refs, files) && RemoveFiles(refs, files)[o].size == refs[o].size
    ensures o in RemoveFiles(refs, files) ==> o in refs && (refs[o].count > 0 ==> RemoveFiles(refs, files)[o].count > 0)
  {
    OccurrencesPositive(files, o);
  }

  /** A described index always allows the removal of a live snapshot, and describes the rest. */
  lemma DeleteDescribes(snapshots: map<SnapshotId, SummaryRow>, refs: Refs, live: Live, id: SnapshotId)
    requires Describes(snapshots, refs, live) && id in live
    requires forall o | o in refs :: refs[o].size <= I64_MAX
    ensures CanRemove(refs, live[id].files)
    ensures Describes(snapshots - {id}, RemoveFiles(refs, live[id].files), live - {id})
  {
    hide RemoveFiles, Total, Summary, Occurrences, Objects;
    var files, rest := live[id].files, live - {id};
    forall o: Digest
      ensures Occurrences(files, o) <= CountIn(refs, o)
      ensures CountIn(RemoveFiles(refs, files), o) == Total(rest, o)
      ensures o in RemoveFiles(refs, files) ==> RemoveFiles(refs, files)[o].count > 0
    {
      TotalRemove(live, id, o);
      RemovedRow(refs, files, o);
    }
    forall other, e | other in rest && e in rest[other].files
      ensures e.objectId in RemoveFiles(refs, files) && RemoveFiles(refs, files)[e.objectId].size == e.size
    {
      assert e in live[other].files;
      TotalPositive(rest, e.objectId);
      TotalRemove(live, id, e.objectId);
      RemovedRow(refs, files, e.objectId);
    }
  }

  /** Counts the files by object; `limit` is the largest count the caller's integer type holds. */
  method CountFiles(files: seq<Entry>, limit: nat) returns (res: Result<Refs, IndexError>)
    requires limit > 0
    ensures res.Ok? <==> SizesAgree(files) && forall o :: Occurrences(files, o) <= limit
    ensures res.Ok? ==> Tallies(res.value, files)
    ensures res.Err? ==> res.error in {SizeConflict, Overflow}
  {
    var counted: Refs := map[];
    for i := 0 to |files|
      invariant Tallies(counted, files[..i])
      invariant forall o | o in counted :: counted[o].count <= limit
    {
      var e := files[i];
      assert files[..i + 1] == files[..i] + [e] && files == files[..i + 1] + files[i + 1..];
      TallyNext(counted, files[..i], e);
      if e.objectId in counted && counted[e.objectId].size != e.size {
        OccurrencesPositive(files[..i], e.objectId);
        return Err(SizeConflict);
      } else if e.objectId in counted {
        if counted[e.objectId].count + 1 > limit {
          OccurrencesConcat(files[..i + 1], files[i + 1..], e.objectId);
          return Err(Overflow);
        }
        counted := counted[e.objectId := ObjectRow(e.size, counted[e.objectId].count + 1)];
      } else {
        counted := counted[e.objectId := ObjectRow(e.size, 1)];
      }
    }
    assert files[..|files|] == files;
    TallyIsUnique(counted, counted, files);
    return Ok(counted);
  }

  lemma TallyNext(counted: Refs, files: seq<Entry>, e: Entry)
    requires Tallies(counted, files)
    ensures Occurrences(files + [e], e.objectId) == CountIn(counted, e.objectId) + 1
    ensures (e.objectId in counted ==> counted[e.objectId].size == e.size) ==>
      Tallies(counted[e.objectId := ObjectRow(e.size, CountIn(counted, e.objectId) + 1)], files + [e])
  {
    forall o: Digest
      ensures Occurrences(files + [e], o) == Occurrences(files, o) + (if e.objectId == o then 1 else 0)
    {
      OccurrencesConcat(files, [e], o);
    }
  }

  // ---------------------------------------------------------------- transactions

  datatype Tables = Tables(snapshots: map<SnapshotId, SummaryRow>, refs: Refs)

  datatype Change = Insert(id: SnapshotId, snapshot: SnapshotFile)
    | Delete(id: SnapshotId, snapshot: SnapshotFile, project: Digest)

  /** When a transaction commits. */
  ghost predicate Accepts(t: Tables, c: Change) {
    match c
    case Insert(id, s) =>
      && |s.files| <= I64_MAX && LogicalSize(s.files) <= I64_MAX
      && if id in t.snapshots then t.snapshots[id] == Summary(s) else CanAdd(t.refs, s.files)
    case Delete(id, s, project) =>
      && CanRemove(t.refs, s.files) && (forall o :: Occurrences(s.files, o) <= I64_MAX)
      && id in t.snapshots && t.snapshots[id].project == project
  }

  /** What a transaction leaves behind; a refused one leaves everything as it was. */
  ghost function Step(t: Tables, c: Change): Tables {
    if !Accepts(t, c) || (c.Insert? && c.id in t.snapshots) then t
    else match c
      case Insert(id, s) => Tables(t.snapshots[id := Summary(s)], AddFiles(t.refs, s.files))
      case Delete(id, s, _) => Tables(t.snapshots - {id}, RemoveFiles(t.refs, s.files))
  }

  /** The live snapshots once a transaction is over. */
  ghost function LiveStep(live: Live, t: Tables, c: Change): Live {
    if !Accepts(t, c) then live
    else match c
      case Insert(id, s) => live[id := s]
      case Delete(id, _, _) => live - {id}
  }

  predicate SummaryFits(row: SummaryRow) {
    row.fileCount <= I64_MAX && row.logicalSize <= I64_MAX
  }

  ghost predicate Current(t: Tables, live: Live) {
    && Describes(t.snapshots, t.refs, live)
    && (forall id | id in t.snapshots :: SummaryFits(t.snapshots[id]))
    && (forall o | o in t.refs :: t.refs[o].size <= I64_MAX && t.refs[o].count <= I64_MAX)
  }

  /** What signed 64-bit columns can hold: one size per object, and all sizes, counts and totals in range. */
  ghost predicate Indexable(live: Live) {
    && (forall id | id in live :: |live[id].files| <= I64_MAX && LogicalSize(live[id].files) <= I64_MAX)
    && (forall id, e | id in live && e in live[id].files :: e.size <= I64_MAX)
    && (forall id, other, e, f | id in live && other in live && e in live[id].files && f in live[other].files
          && e.objectId == f.objectId :: e.size == f.size)
    && (forall o :: Total(live, o) <= I64_MAX)
  }

  lemma CurrentIsIndexable(t: Tables, live: Live)
    requires Current(t, live)
    ensures Indexable(live)
  {
    hide Total, LogicalSize, CountIn;
    forall id | id in live
      ensures |live[id].files| <= I64_MAX && LogicalSize(live[id].files) <= I64_MAX
    {
      assert SummaryFits(t.snapshots[id]) && t.snapshots[id] == Summary(live[id]);
    }
    forall o: Digest
      ensures Total(live, o) <= I64_MAX
    {
      CountIsSmall(t.refs, o);
      assert CountIn(t.refs, o) == Total(live, o);
    }
  }

  lemma CountIsSmall(refs: Refs, o: Digest)
    requires forall o | o in refs :: refs[o].count <= I64_MAX
    ensures CountIn(refs, o) <= I64_MAX
  {
  }

  /** A current index takes in one more snapshot exactly when the columns can hold it beside the others. */
  lemma InsertAcceptedExactly(t: Tables, live: Live, id: SnapshotId, s: SnapshotFile)
    requires Current(t, live) && id !in live
    ensures Accepts(t, Insert(id, s)) <==> Indexable(live[id := s])
  {
    var insert := Insert(id, s);
    if Accepts(t, insert) {
      StepKeepsCurrent(t, live, insert);
      CurrentIsIndexable(Step(t, insert), live[id := s]);
    }
    if Indexable(live[id := s]) {
      IndexableCanAdd(t, live, id, s);
    }
  }

  lemma IndexableCanAdd(t: Tables, live: Live, id: SnapshotId, s: SnapshotFile)
    requires Current(t, live) && id !in live && Indexable(live[id := s])
    ensures CanAdd(t.refs, s.files) && |s.files| <= I64_MAX && LogicalSize(s.files) <= I64_MAX
  {
    hide Total, LogicalSize, Occurrences, Summary;
    var next := live[id := s];
    assert next[id] == s;
    forall e | e in s.files
      ensures e.size <= I64_MAX
      ensures e.objectId in t.refs ==> t.refs[e.objectId].size == e.size
      ensures CountIn(t.refs, e.objectId) + Occurrences(s.files, e.objectId) <= I64_MAX
    {
      var o := e.objectId;
      assert e in next[id].files;
      TotalAdd(live, id, s, o);
      assert CountIn(t.refs, o) == Total(live, o);
      if o in t.refs {
        TotalPositive(live, o);
        var other, f :| other in live && f in live[other].files && f.objectId == o;
        assert f in next[other].files && t.refs[f.objectId].size == f.size;
      }
    }
  }

  lemma InsertKeepsCurrent(t: Tables, live: Live, id: SnapshotId, s: SnapshotFile)
    requires Current(t, live) && id !in live && Accepts(t, Insert(id, s))
    ensures Current(Tables(t.snapshots[id := Summary(s)], AddFiles(t.refs, s.files)), live[id := s])
  {
    hide Describes, CanAdd, AddFiles, LogicalSize;
    assert id !in t.snapshots && CanAdd(t.refs, s.files) by {
      assert t.snapshots.Keys == live.Keys by {
        KeysAgree(t, live);
      }
    }
    InsertDescribes(t.snapshots, t.refs, live, id, s);
    AddedFit(t.refs, s.files);
  }

  lemma KeysAgree(t: Tables, live: Live)
    requires Describes(t.snapshots, t.refs, live)
    ensures t.snapshots.Keys == live.Keys
  {
  }

  lemma DeleteKeepsCurrent(t: Tables, live: Live, id: SnapshotId)
    requires Current(t, live) && id in live
    ensures CanRemove(t.refs, live[id].files) && forall o :: Occurrences(live[id].files, o) <= I64_MAX
    ensures Current(Tables(t.snapshots - {id}, RemoveFiles(t.refs, live[id].files)), live - {id})
  {
    hide Total, Summary, CanRemove;
    DeleteDescribes(t.snapshots, t.refs, live, id);
    forall o: Digest
      ensures Occurrences(live[id].files, o) <= I64_MAX
    {
      TotalRemove(live, id, o);
      assert CountIn(t.refs, o) == Total(live, o);
    }
  }

  /**
   One transaction on a current index: it stays current for the new live set. Snapshot ids are
   content addresses, so a change naming a live id brings that snapshot's own content.
   */
  lemma StepKeepsCurrent(t: Tables, live: Live, c: Change)
    requires Current(t, live)
    requires c.id in live ==> live[c.id] == c.snapshot
    ensures Current(Step(t, c), LiveStep(live, t, c))
    ensures c.Insert? && c.id in live ==> Step(t, c) == t && LiveStep(live, t, c) == live
    ensures c.Delete? && c.id in live && live[c.id].project == c.project ==> Accepts(t, c)
    ensures c.Delete? && c.id !in live ==> !Accepts(t, c) && Step(t, c) == t
  {
    hide CanAdd, CanRemove, AddFiles, RemoveFiles, LogicalSize, Total;
    match c
    case Insert(id, s) =>
      if id in live {
        assert live[id := s] == live;
      } else if Accepts(t, c) {
        InsertKeepsCurrent(t, live, id, s);
      }
    case Delete(id, s, project) =>
      if id in live {
        DeleteKeepsCurrent(t, live, id);
      }
  }

  lemma AddedFit(refs: Refs, files: seq<Entry>)
    requires CanAdd(refs, files)
    requires forall o | o in refs :: refs[o].size <= I64_MAX && refs[o].count <= I64_MAX
    ensures forall o | o in AddFiles(refs, files) ::
      AddFiles(refs, files)[o].size <= I64_MAX && AddFiles(refs, files)[o].count <= I64_MAX
  {
    AddedSizes(refs, files);
    forall o | o in AddFiles(refs, files)
      ensures AddFiles(refs, files)[o].size <= I64_MAX && AddFiles(refs, files)[o].count <= I64_MAX
    {
      AddedRow(refs, files, o);
      OccurrencesPositive(files, o);
      if Occurrences(files, o) > 0 {
        var e :| e in files && e.objectId == o;
        assert AddFiles(refs, files)[e.objectId].size == e.size;
      }
    }
  }

  /** An index and its live set after any number of transactions, starting empty. */
  ghost function History(changes: seq<Change>): (Tables, Live) {
    if changes == [] then (Tables(map[], map[]), map[])
    else
      var (t, live) := History(changes[..|changes| - 1]);
      var c := changes[|changes| - 1];
      (Step(t, c), LiveStep(live, t, c))
  }

  /** Ids name content: no two changes bring different snapshots under one id. */
  ghost predicate ContentAddressed(changes: seq<Change>) {
    forall i, j | 0 <= i < |changes| && 0 <= j < |changes| && changes[i].id == changes[j].id ::
      changes[i].snapshot == changes[j].snapshot
  }

  lemma {:induction false} HistoryIsCurrent(changes: seq<Change>)
    requires ContentAddressed(changes)
    ensures var (t, live) := History(changes);
      && Current(t, live)
      && forall id | id in live ::
        exists i :: 0 <= i < |changes| && changes[i].id == id && changes[i].snapshot == live[id]
  {
    if changes == [] {
    } else {
      var before, c := changes[..|changes| - 1], changes[|changes| - 1];
      HistoryIsCurrent(before);
      var (t, live) := History(before);
      forall id | id in live
        ensures exists i :: 0 <= i < |changes| && changes[i].id == id && changes[i].snapshot == live[id]
      {
        var i :| 0 <= i < |before| && before[i].id == id && before[i].snapshot == live[id];
        assert changes[i] == before[i];
      }
      if c.id in live {
        var i :| 0 <= i < |changes| && changes[i].id == c.id && changes[i].snapshot == live[c.id];
        assert live[c.id] == c.snapshot;
      }
      StepKeepsCurrent(t, live, c);
    }
  }

  /** After any history both tables equal a rebuild of the snapshots that are left. */
  lemma HistoryEqualsRebuild(changes: seq<Change>, store: Store, manifests: map<SnapshotId, ManifestRef>, depth: nat,
                             ids: seq<SnapshotId>, rebuilt: Refs)
    requires ContentAddressed(changes)
    requires Stores(store, manifests, History(changes).1, depth)
    requires forall i, j | 0 <= i < j < |ids| :: ids[i] != ids[j]
    requires IdSet(ids) == History(changes).1.Keys
    requires Tallies(rebuilt, Expansion(store, ManifestRoots(ids, manifests), depth))
    ensures History(changes).0 == Tables(RebuiltRows(store, manifests, History(changes).1, depth), rebuilt)
  {
    hide Describes, Stores, Tallies, History, ContentAddressed, RebuiltRows;
    var (t, live) := History(changes);
    var rows := RebuiltRows(store, manifests, live, depth);
    HistoryIsCurrent(changes);
    RebuildDescribes(store, manifests, live, depth, ids, rebuilt);
    DescriptionIsUnique(t.snapshots, t.refs, rows, rebuilt, live);
  }

  class IndexConnection {
    var snapshots: map<SnapshotId, SummaryRow>
    var refs: Refs

    constructor ()
      ensures snapshots == map[] && refs == map[]
    {
      snapshots, refs := map[], map[];
    }

    constructor Open(t: Tables)
      ensures Contents() == t
    {
      snapshots, refs := t.snapshots, t.refs;
    }

    function Contents(): Tables
      reads this
    {
      Tables(snapshots, refs)
    }

    /** Adds a snapshot; one that is already indexed with the same summary is left alone. */
    method IndexSnapshot(id: SnapshotId, s: SnapshotFile) returns (res: Result<Unit, IndexError>)
      modifies this
      ensures Contents() == Step(old(Contents()), Insert(id, s))
      ensures res.Ok? <==> Accepts(old(Contents()), Insert(id, s))
    {
      var fileCount :- ToSqlite(|s.files|);
      var logicalSize :- AddUpSizes(s.files);
      var row := SummaryRow(s.project, s.createdAt, s.name, s.parent, fileCount, logicalSize);
      if id in snapshots {
        return if snapshots[id] == row then Ok(Done) else Err(Unavailable);
      }
      var next :- IncrementAll(refs, s.files);
      snapshots, refs := snapshots[id := row], next;
      return Ok(Done);
    }

    /** Removes a snapshot and its references; anything unexpected rolls the transaction back. */
    method DeleteSnapshot(project: Digest, id: SnapshotId, s: SnapshotFile) returns (res: Result<Unit, IndexError>)
      modifies this
      ensures Contents() == Step(old(Contents()), Delete(id, s, project))
      ensures res.Ok? <==> Accepts(old(Contents()), Delete(id, s, project))
    {
      var next :- DecrementAll(refs, s.files);
      if id !in snapshots || snapshots[id].project != project {
        return Err(Unavailable);
      }
      assert Accepts(old(Contents()), Delete(id, s, project));
      snapshots, refs := snapshots - {id}, next;
      assert refs == Step(old(Contents()), Delete(id, s, project)).refs;
      assert snapshots == Step(old(Contents()), Delete(id, s, project)).snapshots;
      return Ok(Done);
    }
  }

  method AddUpSizes(files: seq<Entry>) returns (res: Result<nat, IndexError>)
    ensures res.Ok? <==> LogicalSize(files) <= I64_MAX
    ensures res.Ok? ==> res.value == LogicalSize(files)
  {
    var total := 0;
    for i := 0 to |files|
      invariant total == LogicalSize(files[..i]) <= U64_MAX
    {
      assert files[..i + 1] == files[..i] + [files[i]] && files == files[..i + 1] + files[i + 1..];
      SumSeqConcat(files[..i], [files[i]], (e: Entry) => e.size);
      SumSeqConcat(files[..i + 1], files[i + 1..], (e: Entry) => e.size);
      total :- CheckedAdd(total, files[i].size);
    }
    assert files[..|files|] == files;
    res := ToSqlite(total);
  }

  /** `o` can take the references that `counted` holds for it. */
  predicate RowFits(refs: Refs, counted: Refs, o: Digest)
    requires o in counted
  {
    && counted[o].size <= I64_MAX && (o in refs ==> refs[o].size == counted[o].size)
    && CountIn(refs, o) + counted[o].count <= I64_MAX
  }

  lemma SomeEntry(counted: Refs, files: seq<Entry>, o: Digest) returns (e: Entry)
    requires Tallies(counted, files) && o in counted
    ensures e in files && e.objectId == o && e.size == counted[o].size
  {
    OccurrencesPositive(files, o);
    e :| e in files && e.objectId == o;
  }

  lemma AddableRow(refs: Refs, counted: Refs, files: seq<Entry>, o: Digest)
    requires Tallies(counted, files) && o in counted && CanAdd(refs, files)
    ensures RowFits(refs, counted, o) && o in Objects(files)
    ensures AddFiles(refs, files)[o] == ObjectRow(counted[o].size, CountIn(refs, o) + counted[o].count)
  {
    var e := SomeEntry(counted, files, o);
    SizeOfEntry(refs, files, e);
  }

  lemma RowsFitTogether(refs: Refs, counted: Refs, files: seq<Entry>)
    requires Tallies(counted, files)
    requires forall o | o in counted :: RowFits(refs, counted, o)
    ensures CanAdd(refs, files)
  {
    TallyIsUnique(counted, counted, files);
    forall e | e in files
      ensures e.size <= I64_MAX && (e.objectId in refs ==> refs[e.objectId].size == e.size)
      ensures CountIn(refs, e.objectId) + Occurrences(files, e.objectId) <= I64_MAX
    {
      assert RowFits(refs, counted, e.objectId);
    }
  }

  lemma TalliedObjects(counted: Refs, files: seq<Entry>)
    requires Tallies(counted, files)
    ensures counted.Keys == Objects(files)
  {
    forall o | o in counted
      ensures o in Objects(files)
    {
      var e := SomeEntry(counted, files, o);
    }
  }

  lemma CanAddByRow(refs: Refs, counted: Refs, files: seq<Entry>)
    requires Tallies(counted, files)
    ensures CanAdd(refs, files) <==> forall o | o in counted :: RowFits(refs, counted, o)
    ensures counted.Keys == Objects(files)
    ensures CanAdd(refs, files) ==> forall o | o in counted ::
      (o in AddFiles(refs, files)
        && AddFiles(refs, files)[o] == ObjectRow(counted[o].size, CountIn(refs, o) + counted[o].count))
  {
    hide CanAdd, Tallies, RowFits;
    TalliedObjects(counted, files);
    if CanAdd(refs, files) {
      forall o | o in counted
        ensures RowFits(refs, counted, o)
        ensures o in AddFiles(refs, files)
        ensures AddFiles(refs, files)[o] == ObjectRow(counted[o].size, CountIn(refs, o) + counted[o].count)
      {
        AddableRow(refs, counted, files, o);
      }
    }
    if forall o | o in counted :: RowFits(refs, counted, o) {
      RowsFitTogether(refs, counted, files);
    }
  }

  method IncrementAll(refs: Refs, files: seq<Entry>) returns (res: Result<Refs, IndexError>)
    ensures res.Ok? <==> CanAdd(refs, files)
    ensures res.Ok? ==> res.value == AddFiles(refs, files)
  {
    hide CanAdd, AddFiles, Occurrences, Objects, SizesAgree;
    var counting := CountFiles(files, U64_MAX);
    if counting.Err? {
      CanAddCounts(refs, files);
      return counting;
    }
    var counted := counting.value;
    CanAddByRow(refs, counted, files);
    var next, todo := refs, counted.Keys;
    while todo != {}
      invariant todo <= counted.Keys && next.Keys == refs.Keys + (counted.Keys - todo)
      invariant forall o | o in refs && (o in todo || o !in counted) :: next[o] == refs[o]
      invariant forall o | o in counted && o !in todo ::
        RowFits(refs, counted, o) && next[o] == ObjectRow(counted[o].size, CountIn(refs, o) + counted[o].count)
      decreases todo
    {
      var o :| o in todo;
      todo := todo - {o};
      assert RowFits(refs, counted, o) <==> IncrementObjectRef(next, o, counted[o].size, counted[o].count).Ok?;
      next :- IncrementObjectRef(next, o, counted[o].size, counted[o].count);
    }
    AddedByRow(refs, counted, files, next);
    return Ok(next);
  }

  lemma AddedByRow(refs: Refs, counted: Refs, files: seq<Entry>, next: Refs)
    requires counted.Keys == Objects(files)
    requires forall o | o in counted ::
      (o in AddFiles(refs, files)
        && AddFiles(refs, files)[o] == ObjectRow(counted[o].size, CountIn(refs, o) + counted[o].count))
    requires next.Keys == refs.Keys + counted.Keys
    requires forall o | o in counted :: next[o] == ObjectRow(counted[o].size, CountIn(refs, o) + counted[o].count)
    requires forall o | o in refs && o !in counted :: next[o] == refs[o]
    ensures next == AddFiles(refs, files)
  {
    forall o | o in refs && o !in counted
      ensures AddFiles(refs, files)[o] == next[o]
    {
      OccurrencesPositive(files, o);
    }
    assert next.Keys == AddFiles(refs, files).Keys;
  }

  /** Files that can be added have countable occurrences. */
  lemma CanAddCounts(refs: Refs, files: seq<Entry>)
    ensures CanAdd(refs, files) ==> SizesAgree(files) && forall o :: Occurrences(files, o) <= U64_MAX
  {
    if CanAdd(refs, files) {
      forall o: Digest
        ensures Occurrences(files, o) <= U64_MAX
      {
        OccurrencesPositive(files, o);
      }
    }
  }

  /** The reference row of `o` holds at least what `counted` takes from it. */
  predicate RowCovers(refs: Refs, counted: Refs, o: Digest)
    requires o in counted
  {
    counted[o].size <= I64_MAX && o in refs && refs[o].size == counted[o].size && counted[o].count <= refs[o].count
  }

  lemma CanRemoveByRow(refs: Refs, counted: Refs, files: seq<Entry>)
    requires Tallies(counted, files)
    ensures CanRemove(refs, files) <==> forall o | o in counted :: RowCovers(refs, counted, o)
    ensures counted.Keys == Objects(files)
    ensures forall o | o in counted :: counted[o].count == Occurrences(files, o) > 0
  {
    TallyIsUnique(counted, counted, files);
    TalliedObjects(counted, files);
    if CanRemove(refs, files) {
      forall o | o in counted
        ensures RowCovers(refs, counted, o)
      {
        var e := SomeEntry(counted, files, o);
      }
    }
    if forall o | o in counted :: RowCovers(refs, counted, o) {
      forall e | e in files
        ensures RowCovers(refs, counted, e.objectId)
      {
      }
    }
  }

  method DecrementAll(refs: Refs, files: seq<Entry>) returns (res: Result<Refs, IndexError>)
    ensures res.Ok? <==> CanRemove(refs, files) && forall o :: Occurrences(files, o) <= I64_MAX
    ensures res.Ok? ==> res.value == RemoveFiles(refs, files)
  {
    hide CanRemove, RemoveFiles, Occurrences, Objects;
    var counting := CountFiles(files, I64_MAX);
    if counting.Err? {
      CanRemoveAgrees(refs, files);
      return counting;
    }
    var counted := counting.value;
    CanRemoveByRow(refs, counted, files);
    var next, todo := refs, counted.Keys;
    while todo != {}
      invariant todo <= counted.Keys && next.Keys <= refs.Keys
      invariant forall o | o in refs && (o in todo || o !in counted) :: o in next && next[o] == refs[o]
      invariant forall o | o in counted && o !in todo ::
        && RowCovers(refs, counted, o) && (o in next <==> refs[o].count > counted[o].count)
        && (o in next ==> next[o] == refs[o].(count := refs[o].count - counted[o].count))
      decreases todo
    {
      var o :| o in todo;
      todo := todo - {o};
      var size :- ToSqlite(counted[o].size);
      if o !in next || next[o].size != size || next[o].count < counted[o].count {
        return Err(Unavailable);
      }
      if next[o].count == counted[o].count {
        next := next - {o};
      } else {
        next := next[o := next[o].(count := next[o].count - counted[o].count)];
      }
    }
    RemovedByRow(refs, counted, files, next);
    return Ok(next);
  }

  lemma CanRemoveAgrees(refs: Refs, files: seq<Entry>)
    ensures CanRemove(refs, files) ==> SizesAgree(files)
  {
  }

  lemma RemovedByRow(refs: Refs, counted: Refs, files: seq<Entry>, next: Refs)
    requires counted.Keys == Objects(files) && forall o | o in counted :: counted[o].count == Occurrences(files, o) > 0
    requires next.Keys <= refs.Keys
    requires forall o | o in refs && o !in counted :: o in next && next[o] == refs[o]
    requires forall o | o in counted ::
      && o in refs && counted[o].count <= refs[o].count && (o in next <==> refs[o].count > counted[o].count)
      && (o in next ==> next[o] == refs[o].(count := refs[o].count - counted[o].count))
    ensures next == RemoveFiles(refs, files)
  {
    var removed := RemoveFiles(refs, files);
    forall o | o in refs
      ensures o in next <==> o in removed
      ensures o in next ==> next[o] == removed[o]
    {
      OccurrencesPositive(files, o);
    }
    assert next.Keys == removed.Keys;
  }
}
