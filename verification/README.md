# CheckPo in Dafny

CheckPo keeps checkpoints of a Unity project in a content-addressed store: immutable manifest
chunks form a Merkle DAG shared by all checkpoints, a hash-chained inventory says which
checkpoints exist, journals make creation and deletion survive a crash, a derived SQLite index
counts references, mark-and-sweep removes garbage, and locks and a registry decide which project
directory may work on which repository. This project models that logic and proves what it is for.

`dafny verify dfyconfig.toml` checks everything.

| file | what it models |
|---|---|
| `Outcomes.dfy`, `Sums.dfy`, `Sequences.dfy`, `Sorting.dfy`, `PathOrder.dfy` | results, finite sums, sorting and the order of paths |
| `Manifests.dfy` | chunks, and what a manifest means: its expansion without any sharing |
| `Snapshots.dfy`, `ManifestShape.dfy` | snapshot roots as their readers see them, and the one shape their manifests must have |
| `ManifestValidation.dfy`, `ValidationOverflow.dfy` | validating manifests with a bounded cache shared by all snapshots, and what the bound can do |
| `WireBytes.dfy`, `MerkleCodec.dfy` | numbers as bytes, and the stored form of manifest chunks: encoding, decoding and their agreement |
| `ManifestBuild.dfy` | building a manifest from a file list; a manifest is accepted exactly when it is the one that would be built |
| `SnapshotLoading.dfy`, `SnapshotRoundTrip.dfy` | loading a snapshot as a checked file list; creating one and loading it again |
| `ObjectRefs.dfy`, `RebuildAggregation.dfy`, `IndexRebuild.dfy` | rebuilding reference counts by pushing multiplicities through the DAG in topological batches |
| `SnapshotIndex.dfy` | incremental insert and delete of a snapshot, and their agreement with a rebuild |
| `Inventory.dfy`, `CheckpointProtocol.dfy` | creation, deletion, journals, recovery, with a stop before any durable write |
| `LeftoverJournals.dfy`, `UnfinishedDeletions.dfy` | what journals that recovery could not remove or finish lead to |
| `PublishBarrier.dfy` | why a published root never refers to something a power loss can take |
| `ReferenceWalk.dfy`, `StorageGc.dfy`, `Verification.dfy` | walks with one visited set for all snapshots, garbage collection and verification |
| `AsciiManifests.dfy`, `HiddenConflict.dfy` | manifests of plain names, and one on which the two verdicts of verification differ |
| `PlanTranscript.dfy` | the bytes hashed into a maintenance plan id |
| `ProjectRegistry.dfy`, `ProjectClaims.dfy`, `UnsteadyLoads.dfy` | any number of processes, their locks and the registry |
| `CopiedProjects.dfy` | what every operation does with a copied or a moved project |
| `SeparateInit.dfy` | the resumable initialization of a separate project |
| `ChunkCache.dfy` | the bounded chunk cache |
| `DirectoryOrder.dfy` | orders of directory removal, creation and sync |
| `ChangeTree.dfy` | the tree of changed files |

How to read it:

- The meaning of a manifest is `Manifests.Expansion`: walk the tree below every root with no
  sharing at all and list the file entries. Every fast form (batched aggregation, shared visited
  sets, validation cache, explicit stacks) is proved against it. `Expands` says the walk is finite
  and readable; `AnyDepth` shows the depth bound in it does not matter.
- A crash is a stop before a durable write. In `CheckpointProtocol` and `SeparateInit` every such
  write spends one unit of a budget and the process stops when none is left; a run is any sequence
  of calls with any budgets, so stops inside recovery and retries are covered. What the code only
  warns about may fail where a `Faults` value of the call says so; without such a fault, and with
  enough budget, the results are determined.
- In `ProjectClaims` every step of every process is one event and a run is any list of events.

Premises:

- Digests do not collide. A digest is therefore a number; an inventory head is the chain of
  operations whose digest it is; a plan id is the transcript it was computed from.
- New checkpoint ids, operation ids and project ids are fresh.
- A single file write, unlink, rename, lock request or SQL transaction is atomic.
- The bytes stored for a chunk that was built are its encoding, and the manifest of a snapshot lists
  the files of that snapshot (in `CheckpointProtocol`; what was built is shown to in
  `SnapshotRoundTrip`).
- The bytes of the cached chunks and of a chunk being inserted are in memory together, so their
  total is a machine size.

Where code and expectation differ:

- Verifying a checkpoint loads it, and loading compares every path with all directories above it and
  writes out every time; verifying a project validates the manifest, which compares neighbouring keys
  only. So a project can verify although one of its checkpoints does not.
  `Verification.VerdictsAgree` is the exact condition: with every manifest in order, a checkpoint
  fails exactly when some key is a directory of a key that does not come right after it, or a time is
  out of range. `HiddenConflict` is an instance with the paths `Assets/a`, `Assets/a.b` and
  `Assets/a/b`. Creation refuses such a list (`SnapshotRoundTrip.PrepareSnapshot`).
- Verifying a project, garbage collection and the index rebuild validate all manifests with one
  cache. It is dropped only after a snapshot that leaves it full, but an insertion is refused as
  soon as it is full, so a sound snapshot can be refused because of the snapshots before it.
  `ManifestShape.NoOverflow` is the exact condition: with every manifest valid on its own, the
  project verifies exactly when it holds (`Verification.VerifyProject`), and garbage collection and
  the rebuild ask for it too. `ValidationOverflow.NeighboursDecide` is an instance: 100,000
  checkpoints that all verify, of which the first 99,999 make a project that verifies as well, while
  all of them together do not.
- Creating a checkpoint does not ask whether its manifest fits into a validation cache, loading does.
  `SnapshotRoundTrip.CreateAndLoad` proves that a created snapshot loads exactly when it fits, and
  then gives back the same list.
- A deletion unlinks the root, then syncs its directory. If the process stops in between, recovery
  finds the root gone and does not sync for it, so a power loss may still bring it back
  (src/CheckPo.Core/src/checkpoint.rs:952-953, 1182-1264). That is harmless exactly as long as no
  sweep removes an item this root needs: `PublishBarrier.Storage.Sweep`, `PublishBarrier.AnyRun`.
- A deletion whose last journal write fails only warns, in recovery as elsewhere
  (src/CheckPo.Core/src/checkpoint.rs:1064-1073, 1275), and is replayed by every later recovery,
  which sets `refs/latest` again to what the deletion chose. `CheckpointProtocol.RunHistory` covers
  all runs up to the first operation that begins beside such an unfinished deletion;
  `CheckpointProtocol.OvertakenReplay` says what its replay does to the disk then, and
  `UnfinishedDeletions.ServeAll` exactly which calls let a replay move the reference. In
  `UnfinishedDeletions.ReferenceVanishes` it takes the reference away beside a checkpoint.
- Recovery is meant to get past every finished operation. It does not if a finished journal could
  not be removed and a later call takes away what recovery still checks: the published root of a
  leftover creation, or the manifest of a leftover deletion's staged copy. `LeftoverJournals`
  proves that a call leads to a refusal exactly in these two cases, and that the refusal is final;
  `CheckpointProtocol.RunHistory` has the first of them on the disk, with stops anywhere.
- `confirm_project_location`, the refresh in `load_project` and `set_project_storage_root` load the
  marker, lock the location of the id they found, then load the marker again and use whatever id
  they find then. `UnsteadyLoads.SlipsAreExact` proves that the steps whose second load finds a
  usable id other than the locked one are the only steps that break the invariant of
  `ProjectClaims`. From each such step of a claim a run leads to a holder whose claim is gone, from
  each of a move onto a project stored elsewhere one leads to a lost move, and both kinds of step
  can be reached (`UnsteadyLoads.ClaimCanSlip`, `UnsteadyLoads.MoveCanSlip`).

## Model

| member | source | states |
|---|---|---|
| Manifests.AnyDepth | src/CheckPo.Core/src/storage/snapshot_v2.rs:481-560 | The expansion of a manifest does not depend on the depth allowed, as long as it suffices, so the naive meaning every other result refers to is well defined |
| Manifests.LastStep | src/CheckPo.Core/src/db.rs:1303-1367 | A chunk is met once per root naming it plus once per listing in a parent that is met: the equation that multiplicity pushing solves |
| Manifests.VisitsAreTheGraph | src/CheckPo.Core/src/db.rs:1054-1110 | The closed set of chunks discovered from the roots is exactly the set of chunks the unshared walk meets |
| ManifestValidation.ManifestValidator.ValidateManifest | src/CheckPo.Core/src/storage/snapshot_v2.rs:449-472 | With any sound cache a manifest is accepted if and only if it expands within 1025 levels, every chunk has the canonical shape (common prefix, edges, child totals, leaf only if it fits), keys increase without a directory right before a path in it, all totals are in range and the stated ones, and its new chunks fit beside those cached before; a depth or readability refusal means it does not expand |
| ManifestValidation.ManifestValidator.ValidateSubtree | src/CheckPo.Core/src/storage/snapshot_v2.rs:481-617 | Every orderly tree that fits below the depth, repeats nothing and finds room is accepted, no other kind of tree is; heights, key ranges and totals taken from the cache are exact, and acceptance caches exactly the tree's chunks |
| ManifestValidation.ManifestValidator.ValidateLeaf | src/CheckPo.Core/src/storage/snapshot_v2.rs:618-662 | A leaf is accepted if and only if it is canonically encoded, not empty, within the target size unless it has one entry, under the common prefix of its keys, in key order without neighbouring ancestors, and its totals are in range; what is recorded is its first and last key and its totals |
| ManifestValidation.HeightIsExact | src/CheckPo.Core/src/storage/snapshot_v2.rs:504-511 | A tree of known height expands within a depth exactly when the height is below it |
| ManifestShape.OrderedMeansDistinct | src/CheckPo.Core/src/storage/snapshot_v2.rs:444-448 | Increasing keys exclude a chunk that occurs twice, which the cached descent no longer checks directly |
| ManifestBuild.BuildManifest | src/CheckPo.Core/src/storage/snapshot_v2.rs:147-203 | A manifest is built exactly when the entries sorted by key are in order, their totals in range and the radix tree at most 1025 levels high; for keys of plain bytes nothing else can stop it, in particular no unary node and none with too many children |
| ManifestBuild.BuildRange | src/CheckPo.Core/src/storage/snapshot_v2.rs:208-283 | A range gets exactly the chunk its entries determine, with everything below it stored, whatever was stored before |
| ManifestBuild.BuiltIsGenuine | src/CheckPo.Core/src/storage/snapshot_v2.rs:151-203 | In every store that holds its chunks a built manifest validates, with the entries it was built from and the totals it states |
| ManifestBuild.AcceptedIsBuilt | src/CheckPo.Core/src/storage/snapshot_v2.rs:481-617 | Every tree that validates consists of exactly the chunks that would be built from the entries below it |
| ManifestBuild.AcceptedExactlyWhenBuilt | src/CheckPo.Core/src/storage/snapshot_v2.rs:426-427 | A manifest validates if and only if it is the one built from some list of files: there is one canonical shape |
| ManifestBuild.CanonicalFormIsUnique | src/CheckPo.Core/src/storage/snapshot_v2.rs:426-427 | Two manifests that validate and hold the same entries have the same root |
| ManifestBuild.NeverUnary | src/CheckPo.Core/src/storage/snapshot_v2.rs:269-273 | Two or more entries in order, with keys of nonzero bytes, part after their common prefix |
| MerkleCodec.EncodeLeaf | src/CheckPo.Core/src/storage/merkle_codec.rs:363-382 | A leaf is encoded exactly when its prefix, its paths, the number of its entries, its times, its totals and its whole length keep to their limits, and the bytes are those of the stored form |
| MerkleCodec.EncodeNode | src/CheckPo.Core/src/storage/merkle_codec.rs:413-429 | The same for a node, none of whose children may be a root |
| MerkleCodec.DecodeLeaf | src/CheckPo.Core/src/storage/merkle_codec.rs:384-411 | What decodes is the stored form of the leaf it decodes to, which keeps to every limit, and the stored form of every such leaf decodes to that leaf: nothing else is accepted, not even a byte too many |
| MerkleCodec.DecodeNode | src/CheckPo.Core/src/storage/merkle_codec.rs:431-461 | The same for nodes |
| MerkleCodec.Open | src/CheckPo.Core/src/storage/merkle_codec.rs:533-575 | Of at most a mebibyte exactly the envelope of its own payload is opened: magic, kind, version, flags and length leave no other way to write it |
| MerkleCodec.StoreAndLoadLeaf | src/CheckPo.Core/src/storage/merkle_codec.rs:363-411 | A leaf that keeps to the limits comes back as it was, any other is refused |
| MerkleCodec.StoreAndLoadNode | src/CheckPo.Core/src/storage/merkle_codec.rs:413-461 | And so with a node |
| MerkleCodec.EncodesAsStored | src/CheckPo.Core/src/storage/snapshot_v2.rs:618-624 | Validation encodes a decoded leaf again and compares: for every string of bytes that decodes the comparison succeeds |
| MerkleCodec.LeafLengthIsExact | src/CheckPo.Core/src/storage/snapshot_v2.rs:664-682 | The length the builder computes without encoding, on which the shape of a manifest depends, is the length of the encoding |
| MerkleCodec.NodesAreShort | src/CheckPo.Core/src/storage/merkle_codec.rs:510-531 | A node within the limits on its prefix and its children is never too long to be stored |
| WireBytes.NumbersFillTheirWidth | src/CheckPo.Core/src/storage/merkle_codec.rs:705-727 | Every string of bytes of a width is the one way to write one number that fits it |
| ManifestBuild.ByKeyFindsTheOrder | src/CheckPo.Core/src/storage/snapshot_v2.rs:147-203 | If a file list can be put in increasing key order, sorting by key puts it in that order |
| SnapshotRoundTrip.PrepareSnapshot | src/CheckPo.Core/src/storage/snapshot_store.rs:65-95 | A snapshot is prepared exactly when its list is in path order with one path per key, no directory above a path, times in range, totals in range and a tree that is not too high; the root then validates wherever its chunks are stored |
| SnapshotRoundTrip.CreateAndLoad | src/CheckPo.Core/src/storage/snapshot_store.rs:65-200 | A created snapshot loads if and only if its chunks fit into a validation cache, and then the same list comes back |
| ValidationOverflow.AlmostFull | src/CheckPo.Core/src/storage/snapshot_v2.rs:599-611 | With one place left in the shared cache any snapshot that brings two new chunks overflows it, however sound it is |
| ValidationOverflow.AllPassAndOverflow | src/CheckPo.Core/src/storage/snapshot_v2.rs:592-611 | 99,999 snapshots of one file and one of two files with long names: a fresh cache accepts each, the shared cache has room for the first 99,999, and none for the last |
| ValidationOverflow.NeighboursDecide | src/CheckPo.Core/src/verify.rs:51-77 | Verifying each of these checkpoints succeeds, verifying the project of all but the last succeeds, verifying the project of all reports an error |
| ObjectRefs.TallyIsUnique | src/CheckPo.Core/src/db.rs:1612-1663 | One list of entries has exactly one reference table, without zero counts, and no size conflict |
| RebuildAggregation.Rebuild | src/CheckPo.Core/src/db.rs:904-964 | Succeeds exactly when some depth expands all roots with one size per object and every total in range; then the table is the naive count of the expansion and each shared chunk was loaded once; Cycle and Unreadable mean no depth expands; Underflow never happens |
| RebuildAggregation.RebuildTables.QueueRoot | src/CheckPo.Core/src/db.rs:1005-1052 | A root's multiplicity is the number of snapshots naming it |
| RebuildAggregation.RebuildTables.DiscoverEdge | src/CheckPo.Core/src/db.rs:1111-1193 | Edge counts and incoming counts record each listing once; a refusal names a total that cannot fit |
| RebuildAggregation.RebuildTables.DiscoverLeafObject | src/CheckPo.Core/src/db.rs:1195-1256 | A leaf's rows count its entries per object; a conflict or overflow rules out any rebuild |
| RebuildAggregation.RebuildTables.DiscoverGraph | src/CheckPo.Core/src/db.rs:1054-1109 | Discovery ends with the closed graph of the roots, every chunk loaded exactly once |
| RebuildAggregation.RebuildTables.ReadReady | src/CheckPo.Core/src/db.rs:1258-1282 | A batch holds distinct discovered, unprocessed chunks with nothing incoming, and is empty only if there is none |
| RebuildAggregation.RebuildTables.ProcessBatch | src/CheckPo.Core/src/db.rs:930-956 | No chunk of a ready batch lists another of it, so all stay ready while the batch is processed |
| RebuildAggregation.RebuildTables.PushToChildren | src/CheckPo.Core/src/db.rs:1303-1367 | Every child receives multiplicity times listings and loses that many incoming edges; a failure names a child whose total or incoming count would leave its range |
| RebuildAggregation.RebuildTables.AbsorbLeaf | src/CheckPo.Core/src/db.rs:1368-1417 | Every object of a leaf gains its occurrences times the leaf's multiplicity |
| RebuildAggregation.RebuildTables.Aggregate | src/CheckPo.Core/src/db.rs:926-964 | Processing ends; chunks left over mean that no depth expands the roots |
| RebuildAggregation.ReadyIsExact | src/CheckPo.Core/src/db.rs:1258-1282 | A chunk with no incoming edge left has received exactly the multiplicity of the unshared walk |
| RebuildAggregation.PushFits | src/CheckPo.Core/src/db.rs:1334-1363 | A push never overflows when the final totals fit |
| RebuildAggregation.NoUnderflow | src/CheckPo.Core/src/db.rs:1347-1353 | An incoming count never goes below zero |
| RebuildAggregation.StuckMeansCycle | src/CheckPo.Core/src/db.rs:950-962 | Unprocessed chunks without a ready one among them contradict every finite expansion |
| RebuildAggregation.ForwardOrderExpands | src/CheckPo.Core/src/db.rs:930-962 | A completed processing order, in which edges only lead forward, bounds the depth of every tree |
| RebuildAggregation.CountedIsTally | src/CheckPo.Core/src/db.rs:904-964 | With every chunk processed the object table is the naive count of the expanded manifests |
| IndexRebuild.AdmitSnapshot | src/CheckPo.Core/src/db.rs:768-783 | A root is entered and queued exactly when it belongs to the project, a fresh cache would accept it, it fits into the shared one and its totals fit into a row |
| IndexRebuild.BuildSnapshotIndex | src/CheckPo.Core/src/db.rs:743-812 | The rebuild succeeds if and only if every snapshot is the project's and valid on its own, none overflows the shared cache or a row, and the objects can be counted; the summary rows are then those the roots state and the reference rows the naive count over all files |
| IndexRebuild.RebuildIsCurrent | src/CheckPo.Core/src/db.rs:743-900 | Both tables of a successful rebuild are exactly what the incremental index may hold for these snapshots: rows, counts and ranges |
| IndexRebuild.RebuildableIsIndexable | src/CheckPo.Core/src/db.rs:743-900 | Snapshots that can be counted anew could also be entered one by one |
| SnapshotIndex.CountFiles | src/CheckPo.Core/src/db.rs:1581-1605 | Counting succeeds exactly when sizes agree and counts fit, and tallies the files |
| SnapshotIndex.IndexConnection.IndexSnapshot | src/CheckPo.Core/src/db.rs:1510-1610 | A transaction that adds a snapshot, leaves an identical indexed one alone, or changes nothing; it commits exactly when sizes agree and counts fit |
| SnapshotIndex.IndexConnection.DeleteSnapshot | src/CheckPo.Core/src/db.rs:1665-1746 | A transaction that removes a snapshot and its references or rolls back, exactly when the tables do not hold them |
| SnapshotIndex.IncrementAll | src/CheckPo.Core/src/db.rs:1581-1663 | Every counted object is added once with its occurrences, or nothing is |
| SnapshotIndex.DecrementAll | src/CheckPo.Core/src/db.rs:1675-1729 | Counts fall by the occurrences, rows reaching zero disappear, a shortfall refuses |
| SnapshotIndex.InsertThenDelete | src/CheckPo.Core/src/db.rs:1510-1746 | Deleting what was just inserted restores the table, whatever it counted before |
| SnapshotIndex.StepKeepsCurrent | src/CheckPo.Core/src/db.rs:1510-1746 | Any transaction on an index describing the live set leaves one describing the new live set; a second deletion of the same snapshot changes nothing |
| SnapshotIndex.InsertAcceptedExactly | src/CheckPo.Core/src/db.rs:1510-1663 | A current index takes in one more snapshot exactly when one size per object and all sizes, counts and totals of the enlarged live set fit its 64-bit columns |
| SnapshotIndex.DescriptionIsUnique | src/CheckPo.Core/src/db.rs:743-900 | The live set determines the tables completely |
| SnapshotIndex.RebuildDescribes | src/CheckPo.Core/src/db.rs:743-900 | The tables a rebuild computes describe the live set, although manifests list files by portable key and snapshots by exact path |
| SnapshotIndex.HistoryEqualsRebuild | src/CheckPo.Core/src/db.rs:1510-1746 | After any sequence of inserts and deletes both tables equal a rebuild of the snapshots left, in whatever order their manifests list the files |
| SnapshotIndex.OrderIrrelevant | src/CheckPo.Core/src/storage/snapshot_store.rs:180-183 | Counts, totals and membership do not depend on the order of a file list |
| Inventory.LatestAfterRemovalFits | src/CheckPo.Core/src/storage/snapshot_inventory.rs:310-392 | With a sound latest the projection never fails, keeps an unaffected latest, names none exactly when nothing remains, and otherwise names the parent of what was removed if it remains, else the one remaining checkpoint added after all others |
| Inventory.LatestAfterRemovalFails | src/CheckPo.Core/src/storage/snapshot_inventory.rs:330-348 | The projection fails exactly for a checkpoint the inventory does not list, or with a latest outside the inventory |
| Inventory.RemovalKeepsNewest | src/CheckPo.Core/src/storage/snapshot_inventory.rs:310-392 | When every checkpoint was added with the newest one before it as its parent, the projected latest is again the newest of what remains |
| Inventory.NoUpdateIsLost | src/CheckPo.Core/src/storage/snapshot_inventory.rs:497-567 | An addition or removal that succeeds grew out of the current head, changes the set by one checkpoint and is its own replay; a refusal means a wrong set or a head somebody else moved |
| Inventory.NewestSurvivorIsNewest | src/CheckPo.Core/src/storage/snapshot_inventory.rs:351-391 | Walking the inventory backwards finds the remaining member added last |
| Inventory.NoReturn | src/CheckPo.Core/src/storage/snapshot_inventory.rs:497-567 | No later inventory state equals an earlier one, so a replay is recognised by the head alone |
| CheckpointProtocol.RunHistory | src/CheckPo.Core/src/project.rs:847-876 | For any sequence of creations, deletions and lock acquisitions, each stopped after any number of writes, with every warning-only failure and beside any finished journals, up to the first operation that begins beside a deletion recovery could not finish: every operation happens whole or not at all; run `i` is stopped only if it had no more than 21 + `i` writes, and refused only if an earlier cleanup failed and an earlier run deleted a checkpoint beside the finished journal of its creation, after which nothing changes; if no run is hindered every run answers Ok, or not found exactly for a deletion of no member, has exactly its effect and leaves no journal and a current index; where each root names the latest its creation found as its parent, the latest is always the checkpoint added last; an index that looks current holds the rows and counts of exactly the live checkpoints |
| CheckpointProtocol.Repository.AcquireLock | src/CheckPo.Core/src/project.rs:847-876 | Recovery keeps the meaning of the disk and ends with every operation in full effect, in at most nine writes beside the removal of finished journals, and stops only without writes; where nothing fails it leaves no journal and, if the objects can be counted, a current index; it refuses exactly when a finished creation has lost its root, and then every later recovery does |
| CheckpointProtocol.Repository.RecoverCreations | src/CheckPo.Core/src/checkpoint_create_journal.rs:121-236 | Going through all creation journals by name, finished ones on both sides of the active one, keeps the roots and the meaning and ends without an active creation; a finished one without its root is never got past |
| CheckpointProtocol.Repository.CreateCheckpoint | src/CheckPo.Core/src/checkpoint.rs:366-544 | From any consistent disk: it fails only without writes (20 beside the finished journals suffice), for a lost root, or beside a deletion recovery could not finish; success adds one checkpoint as latest, a stop leaves the old meaning or the new one; where nothing fails no journal is left, and a current or first index is current afterwards exactly as far as its columns can hold the new checkpoint |
| CheckpointProtocol.Repository.RecoverCreation | src/CheckPo.Core/src/checkpoint_create_journal.rs:148-236 | From every stop: no trace of an unpublished checkpoint, or a published one inventoried once and made latest, whether or not the journal can then be removed; the branch case is unreachable |
| CheckpointProtocol.Repository.DeleteCheckpoint | src/CheckPo.Core/src/checkpoint.rs:835-970 | From any consistent disk: it fails only without writes (21 beside the finished journals suffice), for no member, for a lost root, or beside a deletion recovery could not finish; success removes exactly that checkpoint, a stop leaves the old meaning or the new one; where nothing fails no journal is left and a current index stays current |
| CheckpointProtocol.Repository.RecoverDeletion | src/CheckPo.Core/src/checkpoint.rs:1143-1285 | From every stop: untouched before the staged state is durable, fully removed from then on, whether or not the last write and the cleanup succeed |
| CheckpointProtocol.Repository.FinishDeletion | src/CheckPo.Core/src/checkpoint.rs:1017-1082 | Every write after staging keeps the meaning, with or without the swallowed index, journal and cleanup failures, inside recovery and outside |
| CheckpointProtocol.InventoryAdded | src/CheckPo.Core/src/checkpoint_create_journal.rs:84-108 | The inventory addition succeeds on a first try and on a replay, and is applied once |
| CheckpointProtocol.InventoryRemoved | src/CheckPo.Core/src/checkpoint.rs:1017-1042 | The inventory removal succeeds on a first try and on a replay |
| CheckpointProtocol.RecoveryNeverRefuses | src/CheckPo.Core/src/checkpoint.rs:1215-1275 | None of the inconsistent-state errors of either recovery is reachable for an operation under way or a finished deletion |
| CheckpointProtocol.LeftoverJournalBlocks | src/CheckPo.Core/src/checkpoint_create_journal.rs:172-186 | The unlink of a deletion makes every later recovery refuse exactly when the finished journal of that checkpoint's creation still lies there |
| CheckpointProtocol.OvertakenReplay | src/CheckPo.Core/src/checkpoint.rs:1038-1073 | Replayed beside a checkpoint created meanwhile, an unfinished deletion always moves the latest off it, leaves none exactly when it had removed the only checkpoint, and makes an index that still held its row look current without the new checkpoint |
| CheckpointProtocol.DeletedRootSurvives | src/CheckPo.Core/src/checkpoint.rs:917-963 | While the inventory lists a checkpoint being deleted, its root or an exact staged copy exists |
| LeftoverJournals.ServeAll | src/CheckPo.Core/src/checkpoint_create_journal.rs:172-236 | Over any calls whose journal removals may fail, some call is refused exactly when an earlier one deleted a checkpoint with a leftover creation journal or swept a manifest with a leftover deletion journal |
| LeftoverJournals.ServedIsRecoverable | src/CheckPo.Core/src/checkpoint.rs:1211-1243 | A served call leaves recovery able to run again if and only if it took away nothing a leftover journal stands on |
| LeftoverJournals.Repository.Serve | src/CheckPo.Core/src/project.rs:847-876 | Every call recovers first; a refusal changes no checkpoint and the next call is refused as well |
| LeftoverJournals.LiveIsCreatedNotDeleted | src/CheckPo.Core/src/checkpoint.rs:366-544 | After any served calls the published snapshots are exactly those created and not deleted since |
| LeftoverJournals.CreatedIsStuck | src/CheckPo.Core/src/checkpoint_create_journal.rs:172-236 | The creation journals left are exactly those that no call since their creation could remove |
| LeftoverJournals.DeletedIsStuck | src/CheckPo.Core/src/checkpoint.rs:1264-1285 | The same for the journals of deletions that found their snapshot |
| LeftoverJournals.ReadableIsUnswept | src/CheckPo.Core/src/maintenance.rs:117-317 | The complete manifests are those of snapshots created and not swept away since while unpublished |
| UnfinishedDeletions.ServeAll | src/CheckPo.Core/src/checkpoint.rs:1064-1073 | Over any calls whose last deletion writes may fail, some recovery moves the latest exactly when an earlier call created a checkpoint beside a journal that stays open, or left open last a journal that chose another latest; until then every call has exactly its effect and the latest is sound |
| UnfinishedDeletions.ServedIsFaithful | src/CheckPo.Core/src/checkpoint.rs:1017-1073 | One call has exactly its effect, and leaves a repository whose recovery keeps the latest if and only if it was harmless |
| UnfinishedDeletions.Repository.ReplayDeletions | src/CheckPo.Core/src/checkpoint.rs:1168-1285 | Replaying every open deletion in name order ends with the latest the last of them chose |
| UnfinishedDeletions.ReferenceVanishes | src/CheckPo.Core/src/checkpoint.rs:1098-1112 | Deleting the only checkpoint, leaving that open and creating another: the next recovery removes the latest beside the checkpoint, and a creation that begins with it is refused |
| CheckpointProtocol.CurrentIndexIsRight | src/CheckPo.Core/src/db.rs:187-214 | Whenever the index head equals the inventory head, the tables on disk hold the rows and counts of the live snapshots |
| CheckpointProtocol.RowChangesAreTransactions | src/CheckPo.Core/src/checkpoint.rs:1044-1057 | On tables describing some snapshots the transactions enter or remove exactly one of them; a replayed delete is refused and changes nothing |
| CheckpointProtocol.DeletedRowsIndexed | src/CheckPo.Core/src/checkpoint.rs:1044-1057 | A stop between the row change and the head write leaves the index stale, never wrong |
| CheckpointProtocol.Repository.RebuildIndex | src/CheckPo.Core/src/db.rs:743-900 | The index is replaced exactly by tables of the live checkpoints, and whenever the roots match the inventory and their objects can be counted it is current afterwards |
| PublishBarrier.AnyRun | src/CheckPo.Core/src/checkpoint.rs:366-446 | After any creations and deletions stopped anywhere, sweeps and power losses, every root that exists or that a power loss may bring back has all its objects and chunks, up to the first sweep that takes an item of a root whose deletion stopped between the unlink and the sync; until then a checkpoint whose creation was not hindered is there, whatever power losses followed, until it is deleted, and a deleted one is gone for good unless a deletion of it stopped before its sync |
| PublishBarrier.Storage.DeleteCheckpoint | src/CheckPo.Core/src/checkpoint.rs:917-953 | A deletion leaves its unlink volatile exactly when the process stops before the directory is synced |
| PublishBarrier.Storage.Sweep | src/CheckPo.Core/src/maintenance.rs:117-317 | Removing items no published root needs keeps every crash image complete if and only if no root with a volatile unlink needs one of them |
| PublishBarrier.Storage.ImagesDecide | src/CheckPo.Core/src/checkpoint.rs:430-446 | Every crash image is complete exactly when everything needed by a root that is there or may come back is durable |
| PublishBarrier.Storage.CreateCheckpoint | src/CheckPo.Core/src/checkpoint.rs:151-446 | A published root's items are durable although the parent's items are never synced again; it takes at most one sync per directory of the other items and one for the root, fails only without syncs, cancelled or with content that does not read back, and once reported no power loss takes the root |
| PublishBarrier.Storage.Store | src/CheckPo.Core/src/storage/chunk_store.rs:151-207 | An item is covered by the pending syncs afterwards, a known-durable one is skipped, a full batch is synced first, and nothing becomes durable without a sync |
| PublishBarrier.Storage.Flush | src/CheckPo.Core/src/storage/anchored_fs/sync_batch.rs:27-167 | After a flush nothing recorded is left unsynced and nothing durable came loose, with one sync per recorded directory |
| PublishBarrier.Storage.LosePower | src/CheckPo.Core/src/checkpoint.rs:430-446 | Any crash image, which has every root whose link was synced, keeps all its roots complete |
| ReferenceWalk.ReferenceCollector.Walk | src/CheckPo.Core/src/maintenance.rs:1176-1223 | After only successful walks the visited set is the graph of all roots so far and the gathered sizes are those of its entries; the first failure means the manifest does not expand or has a bad path |
| ReferenceWalk.ReferencesDecide | src/CheckPo.Core/src/maintenance.rs:1002-1023 | One remembered size per object and the conflict list decide whether every entry is present with its size |
| Snapshots.ExpansionOfAll | src/CheckPo.Core/src/verify.rs:51-77 | The shared walk covers exactly the entries of each snapshot's own expansion |
| StorageGc.Repository.MarkAll | src/CheckPo.Core/src/maintenance.rs:935-967 | A snapshot is skipped exactly when some snapshot is unhealthy by the naive reading or overflows the validation cache it shares; otherwise the marks are the graph of all live roots |
| StorageGc.Repository.Analyze | src/CheckPo.Core/src/maintenance.rs:913-1138 | Problems are reported exactly when the repository is unsound by the naive reading or a snapshot overflows the shared validation cache; without problems the candidates are exactly what no expansion meets |
| StorageGc.Repository.Apply | src/CheckPo.Core/src/maintenance.rs:64-344 | A sweep begins exactly when the repository is sound, the expected plan is exactly its garbage and nobody cancelled, so every refusal has its cause; it then deletes exactly as much as the faults let it, objects first, everything without faults; an error means nothing was deleted; otherwise every live expansion and object is unchanged wherever the sweep stopped, the remaining count is exact, and a completed sweep leaves no garbage |
| StorageGc.SweepKeepsLive | src/CheckPo.Core/src/maintenance.rs:117-317 | Removing any part of the garbage keeps the repository sound with the same live closure; every manifest validates as before, with the same room in the cache |
| StorageGc.SweepThenAnalyze | src/CheckPo.Core/src/maintenance.rs:64-344 | The expected plan applied to a sound repository without faults completes; analysing again finds no problem, and after a completed sweep no candidate |
| Verification.VerifyProject | src/CheckPo.Core/src/verify.rs:22-115 | The deduplicated verdict is valid if and only if the repository checks pass, the manifest and the objects of every snapshot pass the naive check, and none overflows the shared validation cache; a full valid verdict means every object file below every snapshot has the length and the digest its entry names; the errors are the first of a list in which each repository check is named exactly if it failed and each snapshot problem belongs to its snapshot, capped without changing the verdict |
| Verification.VerifyCheckpoint | src/CheckPo.Core/src/verify.rs:294-337 | The verdict on one checkpoint is valid if and only if its manifest and objects pass the naive check, no key is a directory of another and every time can be written; a full valid verdict means every object file has the length and the digest its entry names; the errors of a checkpoint that loads are the first of exactly its problems |
| Verification.VerifyObject | src/CheckPo.Core/src/verify.rs:436-492 | A full check of an object file accepts exactly the file of that length and digest, a quick one exactly a file of that length |
| Verification.FullVerdictIsAboutContent | src/CheckPo.Core/src/verify.rs:464-491 | A snapshot passes a full check if and only if its manifest is healthy and every file it needs is there with its own length and digest |
| Verification.QuickVerdictIsAboutLengths | src/CheckPo.Core/src/verify.rs:464-491 | A quick check passes if and only if the lengths are right, so it does not change when only digests do, and a full pass is a quick pass |
| Verification.VerdictsAgree | src/CheckPo.Core/src/verify.rs:51-115 | All checkpoints are valid one by one exactly when the manifest of each passes and none has a far ancestor or a time out of range, so the two verdicts differ exactly on projects that pass and have such a checkpoint |
| HiddenConflict.PassesButDoesNotLoad | src/CheckPo.Core/src/storage/snapshot_store.rs:339-352 | One canonical leaf of `Assets/a`, `Assets/a.b` and `Assets/a/b` passes as a manifest and is refused when loaded |
| HiddenConflict.VerdictsDiffer | src/CheckPo.Core/src/verify.rs:294-337 | Verifying the project made of that checkpoint succeeds, verifying the checkpoint fails |
| Verification.VerifyFiles | src/CheckPo.Core/src/verify.rs:351-431 | Checking each object once, with its first size, finds a problem for every entry that has one and none that no entry has |
| Verification.CollectSnapshot | src/CheckPo.Core/src/verify.rs:124-213 | After only good snapshots no error is reported for a healthy snapshot with room and without conflicts, and one is for any other; the shared cache then holds its chunks too |
| Verification.CollectAll | src/CheckPo.Core/src/verify.rs:51-84 | All snapshots are collected without error if and only if each is healthy, none overflows the shared cache and no object has two sizes |
| Verification.ProjectVerdict | src/CheckPo.Core/src/verify.rs:215-250 | One check per object and the conflict list decide the naive check of all snapshots |
| Verification.VerifyReferencedObjects | src/CheckPo.Core/src/verify.rs:215-250 | The problems found are exactly the referenced objects whose files are not what is expected of them |
| SnapshotLoading.LoadEntries | src/CheckPo.Core/src/storage/snapshot_v2.rs:696-743 | The explicit stack streams exactly the naive expansion, in order, and accepts exactly the manifests whose entries are all usable |
| SnapshotLoading.ValidateSnapshotFile | src/CheckPo.Core/src/storage/snapshot_store.rs:282-355 | The checks over windows, a map of keys and the slashes of each key accept exactly the lists in path order, with one path per key, no key a directory of another and every time in range |
| SnapshotLoading.LoadSnapshot | src/CheckPo.Core/src/storage/snapshot_store.rs:169-200 | A snapshot loads if and only if its manifest is healthy by the naive reading, no key is a directory of another and every time can be written; the list is then the expansion in path order |
| SnapshotLoading.OnlyFarAncestors | src/CheckPo.Core/src/storage/snapshot_store.rs:339-352 | On validated keys the comparison with all directories finds only directories that do not come right before |
| Verification.VerificationResult.Push | src/CheckPo.Core/src/verify.rs:506-514 | The list is all problems up to 1024, then one closing message |
| PlanTranscript.GcTranscriptDetermines | src/CheckPo.Core/src/maintenance.rs:859-898 | Equal GC transcripts have the same project, inventory head, ordered candidates with ids, paths and sizes, and fingerprints |
| PlanTranscript.TempTranscriptDetermines | src/CheckPo.Core/src/maintenance.rs:825-857 | The same for temporary-file cleanup, file names included |
| PlanTranscript.DomainsNeverCollide | src/CheckPo.Core/src/maintenance.rs:833-866 | A GC plan and a cleanup plan never feed the hash the same bytes |
| PlanTranscript.RecordsAreRead | src/CheckPo.Core/src/maintenance.rs:869-895 | A decoder recovers every sequence of tagged, length-prefixed records |
| WireBytes.BigEndianRoundTrip | src/CheckPo.Core/src/maintenance.rs:807-813 | A length or size is read back from its big-endian bytes |
| PlanTranscript.StorageGcPlanTranscript | src/CheckPo.Core/src/maintenance.rs:859-898 | The bytes hashed are that transcript; it fails exactly when a path is not UTF-8, a fingerprint is missing or a field is too large |
| PlanTranscript.TempCleanupPlanTranscript | src/CheckPo.Core/src/maintenance.rs:825-857 | The same for temporary-file cleanup |
| ProjectClaims.StepKeepsInvariant | src/CheckPo.Core/src/project.rs:118-173 | Every step of every process keeps the lock discipline and what each phase may rely on |
| ProjectClaims.ClaimsHoldInEveryRun | src/CheckPo.Core/src/project.rs:847-931 | With any number of processes stopping anywhere, every exclusive holder's registry entry names its own root and storage, and one project has at most one exclusive holder |
| ProjectClaims.HolderPinsEntry | src/CheckPo.Core/src/project.rs:847-889 | No step of anybody changes the registry entry of a project held exclusively or shared |
| ProjectClaims.HolderPinsEntryThroughout | src/CheckPo.Core/src/project.rs:847-889 | Until a holder itself goes on or stops, its registry entry stays as it was, over every steady run of everybody else |
| ProjectClaims.NoLostUpdate | src/CheckPo.Core/src/project.rs:949-989 | A registry write replaces one entry of the registry as it is at that moment, and only a storage move changes where a registered project is stored |
| ProjectClaims.NoDeadlock | src/CheckPo.Core/src/storage_root_setting.rs:123-146 | Locks are taken in one global order, so no cycle of processes waits for each other |
| ProjectClaims.InvariantMeans | src/CheckPo.Core/src/project.rs:891-931 | The invariant gives holders their claims and excludes a second holder |
| CopiedProjects.RefreshTellsCopiesApart | src/CheckPo.Core/src/project.rs:118-140 | Opening a directory registered elsewhere goes on to record it exactly when the marker at the registered directory is missing or names another project; otherwise, and in every other case, it changes nothing |
| CopiedProjects.ConfirmationGoesOn | src/CheckPo.Core/src/project.rs:157-173 | A confirmation goes on exactly from a directory that is registered elsewhere with its repository, whatever the original says |
| CopiedProjects.InitRefusesCopies | src/CheckPo.Core/src/project.rs:606-650 | An initialization is refused exactly if the marker changed since it was read or the directory is a copy; otherwise the registered storage wins over the requested one and a new directory gets its marker first |
| CopiedProjects.ForcedInitNeedsItsMarker | src/CheckPo.Core/src/project.rs:412-560 | Starting anew goes on exactly while the old marker is there and the new id is not in use elsewhere |
| CopiedProjects.MoveRefusesCopies | src/CheckPo.Core/src/storage_root_setting.rs:22-70 | A storage move goes on exactly for a registered project that is no copy, onto an existing repository, with the locks of the old repository, if it exists, and the new one |
| CopiedProjects.HolderIsEntitled | src/CheckPo.Core/src/project.rs:891-931 | A repository is entered exactly if it is the registered one, exists, its directory still names the project and, for an exclusive holder, is the registered directory |
| CopiedProjects.OriginalKeepsItsProject | src/CheckPo.Core/src/project.rs:118-173 | Over every run of any number of processes the registered directory of a project stays, as long as its marker stays and nobody confirms another place or starts anew there: a copy never takes the project away |
| CopiedProjects.OnlyHomeHolds | src/CheckPo.Core/src/project.rs:891-931 | In such a steady run nobody but the registered directory ever holds the project's repository exclusively |
| CopiedProjects.ClaimIsRecorded | src/CheckPo.Core/src/project.rs:118-173 | Undisturbed, five steps after it began the claim of a moved or confirmed project is recorded, every lock is free and nothing else changed |
| CopiedProjects.RepositoryIsEntered | src/CheckPo.Core/src/project.rs:847-889 | Undisturbed, three steps lead an entitled process to its repository |
| CopiedProjects.ProjectIsInitialized | src/CheckPo.Core/src/project.rs:412-720 | Undisturbed, an initialization of a directory that is no copy leaves its marker, its entry and its repository, and nothing else |
| CopiedProjects.ProjectStartsAnew | src/CheckPo.Core/src/project.rs:412-720 | Undisturbed, a directory starts anew under a new id with a new repository, and the former entry stays |
| CopiedProjects.StorageIsMoved | src/CheckPo.Core/src/storage_root_setting.rs:22-120 | Undisturbed, the storage move of a project that is no copy is recorded in at most seven steps |
| UnsteadyLoads.SlipsAreExact | src/CheckPo.Core/src/project.rs:157-173 | Of all enabled steps exactly those break the invariant before which the marker names a usable id other than the locked one |
| UnsteadyLoads.SlipsGoOn | src/CheckPo.Core/src/project.rs:157-173 | That condition on the state before the step holds exactly when the second load goes on with another id |
| UnsteadyLoads.UnsteadyClaimBreaksHolder | src/CheckPo.Core/src/project.rs:157-173 | From any such step of a claim, in any state the invariant allows, a run leads to an exclusive holder whose registry entry is no longer its own |
| UnsteadyLoads.UnsteadyMoveIsLost | src/CheckPo.Core/src/storage_root_setting.rs:22-31 | From any such step of a move onto a project stored elsewhere a run records the new storage and then silently the former one again |
| UnsteadyLoads.ClaimCanSlip | src/CheckPo.Core/src/project.rs:118-173 | From any state with two settled projects such a step of a claim is reachable, beginning with a first load that finds the id then locked |
| UnsteadyLoads.MoveCanSlip | src/CheckPo.Core/src/storage_root_setting.rs:22-31 | And such a step of a move from any state |
| SeparateInit.SeparateProject.StartSeparate | src/CheckPo.Core/src/project.rs:412-720 | A pending operation keeps its id and storage and completes unless the process stops; a new one begins exactly when the copied or lost project allows it, and every refusal names its cause and leaves everything alone; a stop has used up all writes, and eight suffice; nothing but the new entry, the new repository, the marker and the pending file changes, and the marker only after both exist |
| SeparateInit.SeparateProject.Complete | src/CheckPo.Core/src/project.rs:672-720 | From any phase seven writes suffice, and every prefix of them leaves a state a retry can continue |
| SeparateInit.SeparateProject.InitRepository | src/CheckPo.Core/src/storage/layout.rs:45-98 | Creating the repository keeps what exists and is repeatable after any stop |
| SeparateInit.SeparateProject.Resume | src/CheckPo.Core/src/project.rs:304-330 | A retry goes on exactly with the same reason and storage, and is otherwise told which of them differs |
| SeparateInit.Calls | src/CheckPo.Core/src/project.rs:412-720 | Any calls, each stopped anywhere, with other projects registering in between: one operation, one new repository, the previous registry entry untouched; any call that may begin it and makes one write begins it, any such call with the same reason and storage that makes eight completes it |
| SeparateInit.NothingBeginsTwice | src/CheckPo.Core/src/project.rs:551-605 | A finished operation leaves no ground for another |
| ChunkCache.ManifestChunkCache.Insert | src/CheckPo.Core/src/storage/chunk_store.rs:35-50 | An accepted chunk survives, the fewest oldest are evicted, the queue lists the keys once each, the byte total is exact and both limits hold |
| ChunkCache.RepositoryManifestSource.Load | src/CheckPo.Core/src/storage/chunk_store.rs:72-84 | Reading through the cache answers as the store does: the bytes of a chunk of at most a mebibyte, or whether it is missing or too large; what was read is cached afterwards, and a hit changes nothing |
| ChunkCache.RepositoryManifestSource.LoadAll | src/CheckPo.Core/src/storage/chunk_store.rs:72-84 | So does every sequence of loads |
| ChunkCache.OnlyNewestFits | src/CheckPo.Core/src/storage/chunk_store.rs:42-49 | The eviction loop never reaches the chunk just inserted |
| DirectoryOrder.WithDirectoryChanges | src/CheckPo.Core/src/models/transaction.rs:101-123 | Both lists keep their set without duplicates; removals put descendants first, creations ancestors first |
| DirectoryOrder.DirectorySyncBatch.RecordDirectory | src/CheckPo.Core/src/storage/fs_safety.rs:33-43 | A directory is recorded exactly when it lies under the trusted root |
| DirectoryOrder.DirectorySyncBatch.Merge | src/CheckPo.Core/src/storage/fs_safety.rs:46-56 | Batches of one root are united, others refused unchanged |
| DirectoryOrder.DirectorySyncBatch.Flush | src/CheckPo.Core/src/storage/fs_safety.rs:66-99 | A successful flush syncs each recorded directory once, and every directory before the one above it |
| DirectoryOrder.AncestorIsShallower | src/CheckPo.Core/src/models/transaction.rs:106-113 | An ancestor has fewer slashes and comes first alphabetically |
| Sorting.SortedSet | src/CheckPo.Core/src/models/transaction.rs:106-116 | Sorting, then dropping adjacent duplicates, drops every duplicate and nothing else |
| ChangeTree.BuildChangeTreeModel | src/CheckPo.Tauri/frontend/frontend-state.js:562-578 | The tree built by the loop holds every change exactly once, and the node of each folder holds and counts exactly the changes under it |
| ChangeTree.RootCollectsInput | src/CheckPo.Tauri/frontend/frontend-state.js:658-662 | The files collected from the root are a permutation of the input |
| ChangeTree.FolderHoldsItsChanges | src/CheckPo.Tauri/frontend/frontend-state.js:562-578 | A folder has a node exactly when some change lies under it; the node collects exactly those changes and counts them by type |
| ChangeTree.InsertAtFolder | src/CheckPo.Tauri/frontend/frontend-state.js:564-576 | Inserting a change adds it to every folder on its way and touches no other |
| ChangeTree.FolderPath | src/CheckPo.Tauri/frontend/frontend-state.js:569-572 | A node's path is its folder's, and no other folder has it |
| ChangeTree.FoldersOfChange | src/CheckPo.Tauri/frontend/frontend-state.js:565-567 | The folders of a change are the parts of its path before the last slash or backslash, and the name after it is one part |
| ChangeTree.SeparatorsSplit | src/CheckPo.Tauri/frontend/frontend-state.js:565 | A path splits at every slash and backslash into the parts of what is before and after it |
| ChangeTree.CompressedChangeFolder | src/CheckPo.Tauri/frontend/frontend-state.js:590-599 | Compressing a chain of only children keeps its files |
| ChangeTree.FolderRowDiscards | src/CheckPo.Tauri/frontend/frontend-state.js:590-662 | Discarding a folder row acts on exactly the changes under the folder |
| ChangeTree.OpenTreeShowsInput | src/CheckPo.Tauri/frontend/frontend-state.js:601-656 | With all collected folders open the rows show every change exactly once |

## Left out

- Hashing, compression, the binary codecs of snapshot roots and inventory nodes, SQLite, file handles, symbolic links, permissions and Windows calls are primitives.
- Progress, cancellation points without effect on the result, metrics, diagnostics and display texts.
- `present_size_bytes`: a rebuild clears it for missing objects, an incremental insert assumes presence (src/CheckPo.Core/src/db.rs:846-860, 1652-1660), so it is not part of the equality of the two.
- The file-fingerprint tables, summaries derived from the index, and display-name overrides.
- The order of rows inside a ready batch (`ORDER BY`): any batch of ready chunks is allowed, which includes the code's.
- Parallel object and chunk writes: stores happen in any order, but one at a time; the batches of the workers are one batch.
- Repair of corrupt loose objects and the read-back comparison of new objects, except that a failed read-back stops the creation.
- Inventory tree nodes: sets are sets, generations and counts do not overflow, and inventory nodes are neither marked nor swept by `StorageGc`.
- ManifestValidation.ManifestValidator.ValidateManifest: reading and decoding a chunk is one lookup here, decoding is the subject of `MerkleCodec`; whether the stored bytes decode, with paths that have a portable form, is an oracle of the chunk, as is the heap a cached chunk is estimated to take.
- MerkleCodec.DecodeLeaf: which of its refusals a malformed input gets is not stated, and what UTF-8 is is a parameter.
- ManifestBuild.BuildManifest: the portable form of a path is a parameter, and the limits of the codec on the length of a path or a chunk are not modelled.
- StorageGc.Repository.Analyze: which checkpoint first referred to a missing object, byte totals and truncated details are not computed.
- Verification.VerifyCheckpoint: the checks on the root header, which both verifications share, are one outcome of reading it, and warnings are not modelled.
- DirectoryOrder.WithDirectoryChanges: `OperationPlan::new`, whose totals are plain folds over the operations, is not modelled.
- Transaction, discard and restore engines, the scanner, diffs and the atomic move helpers.
- ProjectClaims.StepKeepsInvariant: a context from an earlier load may be arbitrarily old, so the load itself is not a step; pending-operation checks of an initialization are in `SeparateInit`.
- SeparateInit.SeparateProject.StartSeparate: pending transactions of the previous project, and other processes writing this project's marker between the two marker reads, are not modelled; the locks that exclude them are in `ProjectClaims`.
- ChangeTree.BuildChangeTreeModel: nodes are values rather than objects updated in place; locale comparison is a parameter, so row order within a folder is only known to be a reordering.
- CheckpointProtocol.RunHistory: operations that begin beside a deletion recovery could not finish are followed by `UnfinishedDeletions`, call by call and without stops inside them; all chunks ever stored count as present, since sweeps are the subject of `LeftoverJournals` and `StorageGc`.
- PublishBarrier.AnyRun: an item removed by a sweep may come back with a power loss, which completes more images and is left out.
- UnfinishedDeletions.ServeAll: the index is not part of these runs; `CheckpointProtocol.OvertakenReplay` says what a replay does to it.
- UnsteadyLoads.UnsteadyMoveIsLost: a move that slips onto an unregistered project stops, and one onto a project stored where the move leads chooses nothing new, so both are excluded.
- Keyboard, focus and virtual-window handling of the change list.
