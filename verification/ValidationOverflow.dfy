/**
 The validation cache is shared by the snapshots of one run and is dropped only after a snapshot
 leaves it full, while an insertion into it is refused as soon as it is full. So a snapshot that
 validates on its own can be refused because of its neighbours.
 */
module ValidationOverflow {
  import opened Outcomes
  import opened Sums
  import opened PathOrder
  import opened Manifests
  import opened Snapshots
  import opened ManifestShape
  import opened ManifestValidation
  import opened SnapshotLoading
  import opened Verification
  import opened AsciiManifests

  lemma TwoOutside<T>(s: set<T>, c: T, d: T, t: set<T>)
    requires c != d && c !in s && d !in s && c in t && d in t
    ensures |s + t| >= |s| + 2
  {
    SmallerCount(s + {c, d}, s + t);
    assert |s + {c, d}| == |s| + 2;
  }

  /** One chunk short of full is kept; two new chunks do not fit. */
  lemma AlmostFull(store: Store, rules: ManifestRules, before: seq<SnapshotRoot>, s: SnapshotRoot,
                   c: ManifestRef, d: ManifestRef)
    requires |SharedCache(store, rules, before)| == MAX_MANIFEST_VALIDATION_CHUNKS - 1
    requires c != d && c in ChunksOf(store, RootsOf(s)) && d in ChunksOf(store, RootsOf(s))
    requires c !in SharedCache(store, rules, before) && d !in SharedCache(store, rules, before)
    ensures !HasRoom(store, rules, before, s) && !NoOverflow(store, rules, before + [s])
  {
    hide ChunksOf;
    var all := before + [s];
    assert all[..|all| - 1] == before;
    TwoOutside(SharedCache(store, rules, before), c, d, ChunksOf(store, RootsOf(s)));
  }

  // ---------------------------------------------------------------- the history of one file

  const MANY: nat := 99_999
  const LONG: nat := 20_000

  /** Version `i` of the one file there is. */
  function Version(i: nat): Entry {
    Entry("Assets/a", i, 1, 0)
  }

  /** A file with a name so long that a leaf holds only one of its kind. */
  function LongName(letter: char): (name: string)
    ensures |name| == LONG && forall i | 0 <= i < LONG :: name[i] == letter
  {
    seq(LONG, i => letter)
  }

  function LongEntry(letter: char, id: Digest): Entry {
    Entry("Assets/" + LongName(letter), id, 1, 0)
  }

  function LeafAt(i: nat): ManifestRef {
    ManifestRef(Leaf, i)
  }

  const BIG := ManifestRef(Node, 0)
  const LONG_TOTALS := Totals(1, 1, LONG + 7)

  function EntryAt(i: nat): Entry {
    if i < MANY then Version(i) else LongEntry(if i == MANY then 'b' else 'c', i)
  }

  function BigNode(): Chunk {
    NodeChunk("assets/", [Link('b', LeafAt(MANY), LONG_TOTALS), Link('c', LeafAt(MANY + 1), LONG_TOTALS)])
  }

  function FirstLeaves(n: nat): set<ManifestRef> {
    set i | 0 <= i < n :: LeafAt(i)
  }

  /** A leaf for every version, and a node over two leaves that do not fit into one. */
  function Versions(): Store {
    (map c | c in FirstLeaves(MANY + 2) :: LeafOf(EntryAt(c.id)))[BIG := BigNode()]
  }

  /** More than the code estimates for a leaf of a short name, and for a chunk with long keys. */
  function Weight(c: ManifestRef): nat {
    if c.kind.Leaf? && c.id < MANY then 256 else 65_536
  }

  const PLAIN := Rules(Weight)

  function Objects(): map<Digest, ObjectFile> {
    map i: Digest | i < MANY + 2 :: ObjectFile(1, i)
  }

  /** One checkpoint for each version, and one of the two files with long names. */
  function Small(i: nat): SnapshotRoot {
    Header(Some(LeafAt(i)), true, Totals(1, 1, 8))
  }

  const LARGE := Header(Some(BIG), true, Totals(2, 2, 2 * LONG + 14))

  function Smalls(n: nat): (s: seq<SnapshotRoot>)
    ensures |s| == n && forall i | 0 <= i < n :: s[i] == Small(i)
  {
    seq(n, i requires 0 <= i < n => Small(i))
  }

  // ---------------------------------------------------------------- each checkpoint alone

  lemma LeafStored(i: nat)
    requires i < MANY + 2
    ensures LeafAt(i) in Versions() && Versions()[LeafAt(i)] == LeafOf(EntryAt(i))
    ensures Readable(Versions(), LeafAt(i))
  {
    hide EntryAt, BigNode;
  }

  lemma NodeStored()
    ensures Readable(Versions(), BIG) && Versions()[BIG] == BigNode()
    ensures Children(Versions(), BIG) == [LeafAt(MANY), LeafAt(MANY + 1)]
  {
    hide EntryAt, LeafOf;
  }

  lemma LeafDescription(i: nat)
    requires i < MANY + 2
    ensures Describes(Versions(), PLAIN, LeafAt(i), InfoOf(EntryAt(i)))
    ensures ChunksOf(Versions(), [LeafAt(i)]) == {LeafAt(i)} && Below(Versions(), [LeafAt(i)]) == [EntryAt(i)]
  {
    hide Versions, LeafOf, Describes, ChunksOf, Below;
    LeafStored(i);
    OneEntry(Versions(), Weight, LeafAt(i), EntryAt(i));
  }

  lemma SmallIsAcceptable(i: nat)
    requires i < MANY
    ensures Acceptable(Versions(), PLAIN, Small(i)) && ChunksOf(Versions(), RootsOf(Small(i))) == {LeafAt(i)}
    ensures Below(Versions(), RootsOf(Small(i))) == [Version(i)]
  {
    hide Versions, Describes, ChunksOf, Below, Orderly, Lower;
    LeafDescription(i);
    DescribedIsOrderly(Versions(), PLAIN, LeafAt(i), InfoOf(Version(i)));
    WeightOfOne(LeafAt(i));
  }

  lemma WeightOfOne(c: ManifestRef)
    ensures Fits(PLAIN, {c})
  {
    SumAdd({}, c, Weight);
    assert {} + {c} == {c};
  }

  lemma LongKeys(letter: char)
    requires 'a' <= letter <= 'z'
    ensures Lower("Assets/" + LongName(letter)) == "assets/" + LongName(letter)
  {
    var path, key := "Assets/" + LongName(letter), "assets/" + LongName(letter);
    assert |path| == |key|;
    forall i | 0 <= i < |path|
      ensures LowerChar(path[i]) == key[i]
    {
      if i >= 7 {
        assert path[i] == LongName(letter)[i - 7] && key[i] == LongName(letter)[i - 7];
      }
    }
  }

  function LongSpan(letter: char): Span {
    Span("assets/" + LongName(letter), "assets/" + LongName(letter), LONG_TOTALS)
  }

  lemma LongDescription(letter: char, i: nat)
    requires (letter == 'b' && i == MANY) || (letter == 'c' && i == MANY + 1)
    ensures Describes(Versions(), PLAIN, LeafAt(i), ValidationInfo(0, LongSpan(letter)))
    ensures ChunksOf(Versions(), [LeafAt(i)]) == {LeafAt(i)}
    ensures Below(Versions(), [LeafAt(i)]) == [LongEntry(letter, i)]
  {
    hide Versions, Describes, ChunksOf, Below, Lower;
    LeafDescription(i);
    LongKeys(letter);
    assert |"Assets/" + LongName(letter)| == LONG + 7;
  }

  /** The two leaves lie under their edges, in order, and could not be one leaf. */
  lemma LongSpansFit()
    ensures CanFollow(LongSpan('b'), LongSpan('c'))
    ensures LinkShape("assets/", Link('b', LeafAt(MANY), LONG_TOTALS), LongSpan('b'))
    ensures LinkShape("assets/", Link('c', LeafAt(MANY + 1), LONG_TOTALS), LongSpan('c'))
    ensures ClosingShape("assets/", Joined(LongSpan('b'), LongSpan('c')))
  {
    hide Less, CommonPrefix;
    var b, c := LongName('b'), LongName('c');
    LessAfter("assets/", b, c);
    FirstDecides(b, c);
    PrefixOfParting("assets/", b, c);
    assert ("assets/" + b)[7] == 'b' && ("assets/" + c)[7] == 'c';
    assert |"assets/" + b| == |"assets/" + c|;
  }

  lemma FirstDecides(a: string, b: string)
    requires a != "" && b != "" && a[0] < b[0]
    ensures Less(a, b)
  {
  }

  function BigInfo(): ValidationInfo {
    ValidationInfo(1, Joined(LongSpan('b'), LongSpan('c')))
  }

  lemma LeavesJoin()
    ensures Joining(Versions(), PLAIN, [LeafAt(MANY), LeafAt(MANY + 1)], BigInfo())
    ensures ChunksOf(Versions(), [LeafAt(MANY), LeafAt(MANY + 1)]) == {LeafAt(MANY), LeafAt(MANY + 1)}
    ensures Below(Versions(), [LeafAt(MANY), LeafAt(MANY + 1)]) == [LongEntry('b', MANY), LongEntry('c', MANY + 1)]
  {
    hide Versions, Describes, Siblings, ChunksOf, Below, LongSpan, Joined, LinkShape, ClosingShape, CanFollow,
         LongEntry;
    var b, c := LeafAt(MANY), LeafAt(MANY + 1);
    LongDescription('b', MANY);
    LongDescription('c', MANY + 1);
    LongSpansFit();
    FirstSibling(Versions(), PLAIN, b, ValidationInfo(0, LongSpan('b')));
    NextSibling(Versions(), PLAIN, [b], c, ValidationInfo(1, LongSpan('b')), ValidationInfo(0, LongSpan('c')));
    ChunksConcat(Versions(), [b], [c]);
    BelowConcat(Versions(), PLAIN, [b], [c]);
    assert [b] + [c] == [b, c];
  }

  lemma LinksAreFine()
    ensures LinksFine(Versions(), PLAIN, "assets/", BigNode().links)
  {
    hide Versions, Describes, LongSpan, LinkShape, LinkFine, ClosingShape, CanFollow;
    LongDescription('b', MANY);
    LongDescription('c', MANY + 1);
    LongSpansFit();
    LinkIsFine(Versions(), PLAIN, "assets/", BigNode().links[0], ValidationInfo(0, LongSpan('b')));
    LinkIsFine(Versions(), PLAIN, "assets/", BigNode().links[1], ValidationInfo(0, LongSpan('c')));
  }

  lemma BigDescription()
    ensures Describes(Versions(), PLAIN, BIG, BigInfo())
    ensures ChunksOf(Versions(), [BIG]) == {BIG, LeafAt(MANY), LeafAt(MANY + 1)}
    ensures Below(Versions(), [BIG]) == [LongEntry('b', MANY), LongEntry('c', MANY + 1)]
  {
    hide Versions, Describes, Joining, ChunksOf, Below, LongSpan, Joined, LinksFine, ClosingShape, LongEntry;
    NodeStored();
    LeavesJoin();
    LinksAreFine();
    LongSpansFit();
    NodeFromSiblings(Versions(), PLAIN, BIG, BigInfo());
    BigWalk();
  }

  lemma BigWalk()
    requires Joining(Versions(), PLAIN, [LeafAt(MANY), LeafAt(MANY + 1)], BigInfo())
    ensures Below(Versions(), [BIG]) == Below(Versions(), [LeafAt(MANY), LeafAt(MANY + 1)])
  {
    hide Versions, Below, Spans, LongSpan, Joined;
    NodeStored();
    NodeWalk(Versions(), BIG, 1);
  }

  lemma ThreeWeights()
    ensures Fits(PLAIN, {BIG, LeafAt(MANY), LeafAt(MANY + 1)})
  {
    var b, c := LeafAt(MANY), LeafAt(MANY + 1);
    SumAdd({}, BIG, Weight);
    SumAdd({BIG}, b, Weight);
    SumAdd({BIG, b}, c, Weight);
    assert {} + {BIG} == {BIG} && {BIG} + {b} == {BIG, b} && {BIG, b} + {c} == {BIG, b, c};
  }

  lemma LargeIsAcceptable()
    ensures Acceptable(Versions(), PLAIN, LARGE)
    ensures ChunksOf(Versions(), RootsOf(LARGE)) == {BIG, LeafAt(MANY), LeafAt(MANY + 1)}
    ensures Below(Versions(), RootsOf(LARGE)) == [LongEntry('b', MANY), LongEntry('c', MANY + 1)]
  {
    hide Versions, Describes, ChunksOf, Below, Orderly, LongEntry, LongName, Fits;
    BigDescription();
    DescribedIsOrderly(Versions(), PLAIN, BIG, BigInfo());
    ThreeWeights();
  }

  // ---------------------------------------------------------------- all of them together

  lemma {:induction false} WeightOfLeaves(s: set<ManifestRef>)
    requires forall c | c in s :: c.kind.Leaf? && c.id < MANY
    ensures Sum(s, Weight) == 256 * |s|
    decreases s
  {
    if s != {} {
      var c :| c in s;
      SumRemove(s, c, Weight);
      WeightOfLeaves(s - {c});
    }
  }

  lemma {:induction false} CountLeaves(n: nat)
    ensures |FirstLeaves(n)| == n
  {
    if n > 0 {
      CountLeaves(n - 1);
      assert FirstLeaves(n) == FirstLeaves(n - 1) + {LeafAt(n - 1)};
      assert LeafAt(n - 1) !in FirstLeaves(n - 1);
    } else {
      assert FirstLeaves(0) == {};
    }
  }

  lemma FirstLeavesFit(n: nat)
    requires n <= MANY
    ensures |FirstLeaves(n)| == n && Fits(PLAIN, FirstLeaves(n)) && Retained(PLAIN, FirstLeaves(n)) == FirstLeaves(n)
  {
    hide Weight, Sum;
    CountLeaves(n);
    assert forall c | c in FirstLeaves(n) :: c.kind.Leaf? && c.id < n;
    WeightOfLeaves(FirstLeaves(n));
  }

  /** The versions fill the cache one chunk at a time, without ever filling it up. */
  lemma {:induction false} SmallsAreKept(n: nat)
    requires n <= MANY
    ensures SharedCache(Versions(), PLAIN, Smalls(n)) == FirstLeaves(n) && NoOverflow(Versions(), PLAIN, Smalls(n))
  {
    hide Versions, ChunksOf, Acceptable, Below, Fits, Retained;
    FirstLeavesFit(n);
    if n == 0 {
      assert Smalls(0) == [];
    } else {
      SmallsAreKept(n - 1);
      SmallIsAcceptable(n - 1);
      assert Smalls(n)[..n - 1] == Smalls(n - 1);
      assert FirstLeaves(n) == FirstLeaves(n - 1) + {LeafAt(n - 1)};
    }
  }

  /** Every checkpoint is acceptable, all versions together are too, and one more is one too many. */
  lemma AllPassAndOverflow()
    ensures forall i | 0 <= i < MANY :: Acceptable(Versions(), PLAIN, Small(i))
    ensures Acceptable(Versions(), PLAIN, LARGE)
    ensures NoOverflow(Versions(), PLAIN, Smalls(MANY)) && !NoOverflow(Versions(), PLAIN, Smalls(MANY) + [LARGE])
  {
    hide Versions, Acceptable, SharedCache, NoOverflow, ChunksOf, Below;
    forall i | 0 <= i < MANY
      ensures Acceptable(Versions(), PLAIN, Small(i))
    {
      SmallIsAcceptable(i);
    }
    LargeIsAcceptable();
    SmallsAreKept(MANY);
    FirstLeavesFit(MANY);
    AlmostFull(Versions(), PLAIN, Smalls(MANY), LARGE, BIG, LeafAt(MANY));
  }

  // ---------------------------------------------------------------- what verification says

  /** Names of one length cannot be directories of each other. */
  lemma EqualLengths(keys: seq<string>, n: nat)
    requires forall i | 0 <= i < |keys| :: |keys[i]| == n
    ensures NoAncestors(keys)
  {
  }

  lemma EntriesPass(s: SnapshotRoot, entries: seq<Entry>, n: nat, full: bool)
    requires Acceptable(Versions(), PLAIN, s) && s.ownProject && Below(Versions(), RootsOf(s)) == entries
    requires forall e | e in entries :: |e.path| == n && e.objectId < MANY + 2 && e.size == 1
    ensures CheckpointPasses(Versions(), PLAIN, Objects(), s, path => true, at => true, full)
  {
    hide Versions, Acceptable, Expansion;
    EqualLengths(KeysBelow(Versions(), PLAIN, RootsOf(s)), n);
  }

  lemma SmallPasses(i: nat, full: bool)
    requires i < MANY
    ensures CheckpointPasses(Versions(), PLAIN, Objects(), Small(i), path => true, at => true, full)
  {
    hide Versions, Objects, Acceptable, Below, ChunksOf, CheckpointPasses;
    SmallIsAcceptable(i);
    EntriesPass(Small(i), [Version(i)], 8, full);
  }

  lemma LargePasses(full: bool)
    ensures CheckpointPasses(Versions(), PLAIN, Objects(), LARGE, path => true, at => true, full)
  {
    hide Versions, Objects, Acceptable, Below, ChunksOf, CheckpointPasses;
    LargeIsAcceptable();
    EntriesPass(LARGE, [LongEntry('b', MANY), LongEntry('c', MANY + 1)], LONG + 7, full);
  }

  /**
   Every checkpoint verifies, and so does the project of all but the last; with the last one it
   does not.
   */
  method NeighboursDecide(full: bool) returns (checkpoints: seq<bool>, before: bool, after: bool)
    ensures |checkpoints| == MANY + 1 && (forall i | 0 <= i < |checkpoints| :: checkpoints[i])
    ensures before && !after
  {
    hide Versions, Objects, SnapshotPasses, NoOverflow, Acceptable, Loadable;
    AllPassAndOverflow();
    var all := Smalls(MANY) + [LARGE];
    var errors: seq<Problem>;
    checkpoints := [];
    for i := 0 to |all|
      invariant |checkpoints| == i && forall k | 0 <= k < i :: checkpoints[k] && Passes(all[k], full)
    {
      if i < MANY {
        SmallPasses(i, full);
      } else {
        LargePasses(full);
      }
      var valid: bool;
      valid, errors := VerifyCheckpoint(Versions(), PLAIN, Objects(), all[i], path => true, at => true, full);
      checkpoints := checkpoints + [valid];
    }
    forall s | s in Smalls(MANY)
      ensures Passes(s, full)
    {
      var i :| 0 <= i < MANY && Smalls(MANY)[i] == s;
      assert all[i] == s;
    }
    before, errors := VerifyProject(Versions(), PLAIN, Objects(), Smalls(MANY), path => true,
                                    RepositoryChecks(true, true, true), full);
    after, errors :=
      VerifyProject(Versions(), PLAIN, Objects(), all, path => true, RepositoryChecks(true, true, true), full);
  }

  ghost predicate Passes(s: SnapshotRoot, full: bool) {
    SnapshotPasses(Versions(), PLAIN, Objects(), s, path => true, full)
  }
}
