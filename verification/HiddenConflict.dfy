/**
 A file and a directory of one name, with a third name sorted between them. Validation compares
 neighbouring keys only, so the manifest passes and the project verifies; loading the checkpoint
 compares every path with all directories above it and refuses.
 */
module HiddenConflict {
  import opened Outcomes
  import opened Sums
  import opened PathOrder
  import opened Manifests
  import opened Snapshots
  import opened ManifestShape
  import opened ManifestValidation
  import opened SnapshotLoading
  import opened Verification
  import opened AsciiManifests

  const TOP := ManifestRef(Leaf, 0)
  const PLAIN := Rules(c => 256)
  const SNAPSHOT := Header(Some(TOP), true, Totals(3, 3, 28))

  function Three(): seq<Entry> {
    [Entry("Assets/a", 0, 1, 0), Entry("Assets/a.b", 1, 1, 0), Entry("Assets/a/b", 2, 1, 0)]
  }

  function Lone(): Store {
    map[TOP := LeafChunk("assets/a", Three())]
  }

  function Objects(): map<Digest, ObjectFile> {
    map[0 := ObjectFile(1, 0), 1 := ObjectFile(1, 1), 2 := ObjectFile(1, 2)]
  }

  lemma KeysOfThree()
    ensures Keys(Three(), Lower) == ["assets/a", "assets/a.b", "assets/a/b"]
    ensures TotalsOf(Three(), PLAIN) == Totals(3, 3, 28)
  {
    assert Lower("Assets/a") == "assets/a";
    assert Lower("Assets/a.b") == "assets/a.b";
    assert Lower("Assets/a/b") == "assets/a/b";
    assert Three()[1..] == [Entry("Assets/a.b", 1, 1, 0), Entry("Assets/a/b", 2, 1, 0)];
    assert Three()[1..][1..] == [Entry("Assets/a/b", 2, 1, 0)];
  }

  lemma DotBeforeSlash()
    ensures Less("assets/a.b", "assets/a/b")
  {
    LessAfter("assets/a", ".b", "/b");
    assert "assets/a" + ".b" == "assets/a.b" && "assets/a" + "/b" == "assets/a/b";
  }

  /** The keys increase, no key is a directory of the next, and the first is one of the last. */
  lemma ThreeAreOrdered()
    ensures Ordered(["assets/a", "assets/a.b", "assets/a/b"])
    ensures HasFarAncestor(["assets/a", "assets/a.b", "assets/a/b"])
  {
    hide Less;
    var keys := ["assets/a", "assets/a.b", "assets/a/b"];
    PrefixFirst(keys[0], keys[1]);
    PrefixFirst(keys[0], keys[2]);
    DotBeforeSlash();
    assert IsPathAncestor(keys[0], keys[2]);
  }

  lemma LeafIsShaped()
    ensures LeafShape(PLAIN, "assets/a", Three())
  {
    hide CommonPrefix, TotalsOf;
    KeysOfThree();
    PrefixOfParting("assets/a", "", "/b");
    assert "assets/a" + "" == "assets/a" && "assets/a" + "/b" == "assets/a/b";
    var keys := Keys(Three(), Lower);
    assert keys[0] == "assets/a" && keys[2] == "assets/a/b";
  }

  lemma LoneIsGenuine()
    ensures Acceptable(Lone(), PLAIN, SNAPSHOT) && Below(Lone(), RootsOf(SNAPSHOT)) == Three()
    ensures ChunksOf(Lone(), RootsOf(SNAPSHOT)) == {TOP}
  {
    hide Describes, LeafShape, Ordered, TotalsOf, Below, Keys, Orderly;
    KeysOfThree();
    ThreeAreOrdered();
    LeafIsShaped();
    LeafWalk(Lone(), TOP);
    LeafDescribed(Lone(), PLAIN, TOP);
    DescribedIsOrderly(Lone(), PLAIN, TOP, ValidationInfo(0, SpanOf(Three(), PLAIN)));
    OneFits(TOP);
  }

  lemma OneFits(c: ManifestRef)
    ensures Fits(PLAIN, {c}) && Fits(PLAIN, {} + {c})
  {
    SumAdd({}, c, PLAIN.weight);
    assert {} + {c} == {c};
  }

  lemma LoneHasFault(dated: Instant -> bool)
    ensures HiddenFault(Lone(), PLAIN, SNAPSHOT, dated)
  {
    hide Acceptable, Below, Keys, HasFarAncestor, ChunksOf;
    LoneIsGenuine();
    KeysOfThree();
    ThreeAreOrdered();
  }

  lemma LoneHasRoom()
    ensures NoOverflow(Lone(), PLAIN, [SNAPSHOT])
  {
    hide Acceptable, Below, Fits, ChunksOf;
    LoneIsGenuine();
    OneFits(TOP);
    assert [SNAPSHOT][..0] == [] && SharedCache(Lone(), PLAIN, []) == {};
  }

  lemma ThreePass(parses: string -> bool, full: bool)
    requires forall e | e in Three() :: parses(e.path)
    ensures SnapshotPasses(Lone(), PLAIN, Objects(), SNAPSHOT, parses, full)
  {
    hide Expansion, Acceptable, ChunksOf;
    LoneIsGenuine();
  }

  /** The manifest passes, and the checkpoint does not. */
  lemma PassesButDoesNotLoad(parses: string -> bool, dated: Instant -> bool, full: bool)
    requires forall e | e in Three() :: parses(e.path)
    ensures SnapshotPasses(Lone(), PLAIN, Objects(), SNAPSHOT, parses, full) && NoOverflow(Lone(), PLAIN, [SNAPSHOT])
    ensures !CheckpointPasses(Lone(), PLAIN, Objects(), SNAPSHOT, parses, dated, full)
  {
    hide SnapshotPasses, CheckpointPasses, HiddenFault, NoOverflow, Lone, Objects;
    LoneHasFault(dated);
    LoneHasRoom();
    ThreePass(parses, full);
    PassesAndLoads(Lone(), PLAIN, Objects(), SNAPSHOT, parses, dated, full);
  }

  /** The project made of the one checkpoint verifies, the checkpoint does not. */
  method VerdictsDiffer(full: bool) returns (project: bool, checkpoint: bool)
    ensures project && !checkpoint
  {
    hide SnapshotPasses, CheckpointPasses, NoOverflow;
    PassesButDoesNotLoad(path => true, at => true, full);
    var errors: seq<Problem>;
    project, errors :=
      VerifyProject(Lone(), PLAIN, Objects(), [SNAPSHOT], path => true, RepositoryChecks(true, true, true), full);
    checkpoint, errors := VerifyCheckpoint(Lone(), PLAIN, Objects(), SNAPSHOT, path => true, at => true, full);
  }
}
