/** Snapshot root files as their readers see them, and the manifests of many snapshots together. */
module Snapshots {
  import opened Outcomes
  import opened Manifests

  /**
   One snapshot root file and what reading it gave; `totals` are those it states.
   */
  datatype SnapshotRoot =
    | Damaged
    | Header(manifest: Option<ManifestRef>, ownProject: bool, totals: Totals)

  /** Manifest nodes may be nested this deep below the root chunk, which itself has depth 0. */
  const MAX_MANIFEST_DEPTH: nat := 1024

  const MAX_LEVELS: nat := MAX_MANIFEST_DEPTH + 1

  function RootOf(root: Option<ManifestRef>): seq<ManifestRef> {
    if root.Some? then [root.value] else []
  }

  function RootsOf(s: SnapshotRoot): seq<ManifestRef> {
    if s.Header? then RootOf(s.manifest) else []
  }

  function AllRoots(snapshots: seq<SnapshotRoot>): seq<ManifestRef> {
    if snapshots == [] then [] else AllRoots(snapshots[..|snapshots| - 1]) + RootsOf(snapshots[|snapshots| - 1])
  }

  lemma OneMore(snapshots: seq<SnapshotRoot>, i: nat)
    requires i < |snapshots|
    ensures snapshots[..i + 1] == snapshots[..i] + [snapshots[i]]
    ensures snapshots[..i + 1][..i] == snapshots[..i]
    ensures AllRoots(snapshots[..i + 1]) == AllRoots(snapshots[..i]) + RootsOf(snapshots[i])
  {
    var longer := snapshots[..i + 1];
    assert longer[..|longer| - 1] == snapshots[..i];
  }

  /** All chunks below some roots. */
  ghost function ChunksOf(store: Store, rs: seq<ManifestRef>): set<ManifestRef> {
    set c | c in AllVisits(store, rs, MAX_LEVELS)
  }

  lemma ChunksConcat(store: Store, a: seq<ManifestRef>, b: seq<ManifestRef>)
    ensures ChunksOf(store, a + b) == ChunksOf(store, a) + ChunksOf(store, b)
  {
    AllVisitsConcat(store, a, b, MAX_LEVELS);
  }

  /** The manifests of all snapshots together expand to what each expands to. */
  lemma {:induction false} ExpansionOfAll(store: Store, snapshots: seq<SnapshotRoot>, e: Entry)
    ensures e in Expansion(store, AllRoots(snapshots), MAX_LEVELS)
       <==> exists s :: s in snapshots && e in Expansion(store, RootsOf(s), MAX_LEVELS)
  {
    if snapshots != [] {
      var last := |snapshots| - 1;
      ExpansionOfAll(store, snapshots[..last], e);
      ExpansionConcat(store, AllRoots(snapshots[..last]), RootsOf(snapshots[last]), MAX_LEVELS);
      assert snapshots == snapshots[..last] + [snapshots[last]];
      assert snapshots[last] in snapshots;
      assert forall s | s in snapshots :: s in snapshots[..last] || s == snapshots[last];
      assert forall s | s in snapshots[..last] :: s in snapshots;
    } else {
      assert Expansion(store, [], MAX_LEVELS) == [];
    }
  }

  lemma {:induction false} SnapshotRootsIncluded(snapshots: seq<SnapshotRoot>, s: SnapshotRoot)
    requires s in snapshots
    ensures forall r | r in RootsOf(s) :: r in AllRoots(snapshots)
  {
    var last := |snapshots| - 1;
    if snapshots[last] != s {
      assert s in snapshots[..last];
      SnapshotRootsIncluded(snapshots[..last], s);
    }
  }
}
