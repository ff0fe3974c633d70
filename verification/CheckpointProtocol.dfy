/**
 Creating and deleting checkpoints with journals (checkpoint.rs, checkpoint_create_journal.rs)
 and the recovery that runs whenever the exclusive repository lock is taken (project.rs).

 `Disk` is everything durable. A process may stop before any durable write: `budget` is the
 number of writes left to it. `Meaning` says which checkpoints a disk stands for, whatever was
 going on when the last process stopped; every write keeps it except the one that commits an
 operation.
 */
module CheckpointProtocol {
  import opened Outcomes
  import opened Inventory
  import opened Sequences
  import opened Snapshots
  import Manifests
  import ManifestShape
  import IR = IndexRebuild
  import RA = RebuildAggregation
  import SI = SnapshotIndex

  datatype CreateState = Prepared | RootPublished | InventoryUpdated | LatestUpdated

  datatype CreateJournal = CreateJournal(
    state: CreateState, id: SnapshotId, oldLatest: Option<SnapshotId>, headBefore: Head)

  datatype DeleteState = Intended | Staged | Uninventoried

  /** The copy of the root kept in the transaction directory. */
  datatype StagedCopy = Missing | Partial | Exact

  datatype DeleteJournal = DeleteJournal(
    state: DeleteState, id: SnapshotId, oldLatest: Option<SnapshotId>, newLatest: Option<SnapshotId>,
    updateIndex: bool, headBefore: Head, staged: StagedCopy)

  /** A journal that says its operation is finished; only its removal is still to come. */
  datatype Finished = Finished(tx: OperationId, id: SnapshotId)

  /** The derived index: the inventory head it was written for, and its tables. */
  datatype IndexFile = IndexFile(head: Head, tables: SI.Tables) {
    function Rows(): set<SnapshotId> {
      tables.snapshots.Keys
    }
  }

  datatype Disk = Disk(
    roots: set<SnapshotId>, head: Head, latest: Option<SnapshotId>,
    creates: map<OperationId, CreateJournal>, deletes: map<OperationId, DeleteJournal>,
    finishedCreates: set<Finished>, finishedDeletes: set<Finished>,
    index: Option<IndexFile>)

  /**
   Refused: recovery found a finished creation without its root. Overtaken: an operation is about
   to begin beside a deletion that recovery could not finish.
   */
  datatype Failure = Stopped | SnapshotNotFound | Refused | Overtaken

  /**
   What may fail with no more than a warning while one call is served: updating the index,
   rebuilding it, writing the last state of a journal, removing a finished journal.
   */
  datatype Faults = Faults(index: bool, rebuild: bool, journal: bool, cleanup: bool)

  /** The checkpoints there are and the latest of them. */
  datatype Logical = Logical(head: Head, latest: Option<SnapshotId>)

  // ---------------------------------------------------------------- consistency of a disk

  ghost predicate Settled(roots: set<SnapshotId>, head: Head, latest: Option<SnapshotId>) {
    && roots == Members(head)
    && (latest.None? <==> roots == {})
    && (latest.Some? ==> latest.value in roots)
  }

  predicate IndexIsCurrent(index: Option<IndexFile>, head: Head) {
    index.Some? && index.value.head == head
  }

  /** An index carries no head of the future, and under the present head it has the live rows. */
  ghost predicate IndexSound(index: Option<IndexFile>, head: Head) {
    index.Some? ==>
      Precedes(index.value.head, head) && (index.value.head == head ==> index.value.Rows() == Members(head))
  }

  /** Every checkpoint that was ever added. */
  function Ever(h: Head): set<SnapshotId> {
    match h
    case Initial => {}
    case Added(parent, id, _) => Ever(parent) + {id}
    case Removed(parent, _, _) => Ever(parent)
  }

  lemma {:induction false} MembersWere(h: Head)
    ensures Members(h) <= Ever(h)
  {
    if !h.Initial? {
      MembersWere(h.parent);
    }
  }

  /** The additions a head records. */
  function Additions(h: Head): set<Finished> {
    match h
    case Initial => {}
    case Added(parent, id, tx) => Additions(parent) + {Finished(tx, id)}
    case Removed(parent, _, _) => Additions(parent)
  }

  function Removals(h: Head): set<Finished> {
    match h
    case Initial => {}
    case Added(parent, _, _) => Removals(parent)
    case Removed(parent, id, tx) => Removals(parent) + {Finished(tx, id)}
  }

  lemma {:induction false} OperationsAreRecorded(h: Head)
    ensures |Additions(h)| + |Removals(h)| <= Generation(h)
    ensures forall f | f in Additions(h) :: f.id in Ever(h)
  {
    if !h.Initial? {
      OperationsAreRecorded(h.parent);
    }
  }

  /** Finished journals are those of recorded operations, and no root has come back to a deleted one. */
  ghost predicate FinishedFit(d: Disk) {
    && d.finishedCreates <= Additions(d.head) && d.finishedDeletes <= Removals(d.head)
    && forall f | f in d.finishedDeletes :: f.id !in d.roots && f.id in Ever(d.head)
  }

  /** How many finished journals there are. */
  function Leftovers(d: Disk): nat {
    |d.finishedCreates| + |d.finishedDeletes|
  }

  /** No operation is going on; any number of finished journals may lie about. */
  ghost predicate Quiet(d: Disk) {
    && d.creates == map[] && d.deletes == map[] && FinishedFit(d)
    && Settled(d.roots, d.head, d.latest) && IndexSound(d.index, d.head)
  }

  function HeadAfterCreate(tx: OperationId, j: CreateJournal): Head {
    Added(j.headBefore, j.id, tx)
  }

  function HeadAfterDelete(tx: OperationId, j: DeleteJournal): Head {
    Removed(j.headBefore, j.id, tx)
  }

  /** A disk a creation may leave behind. */
  ghost predicate Creating(d: Disk, tx: OperationId, j: CreateJournal) {
    && d.creates == map[tx := j] && d.deletes == map[]
    && Settled(Members(j.headBefore), j.headBefore, j.oldLatest) && j.id !in Ever(j.headBefore)
    && FinishedFit(d) && IndexSound(d.index, d.head)
    && match j.state
       case Prepared =>
         && d.latest == j.oldLatest
         && if j.id in d.roots
            then
              && d.roots == Members(HeadAfterCreate(tx, j))
              && (d.head == j.headBefore || d.head == HeadAfterCreate(tx, j))
            else d.roots == Members(j.headBefore) && d.head == j.headBefore
       case RootPublished =>
         && d.latest == j.oldLatest && d.roots == Members(HeadAfterCreate(tx, j))
         && (d.head == j.headBefore || d.head == HeadAfterCreate(tx, j))
       case InventoryUpdated =>
         && d.roots == Members(d.head) && d.head == HeadAfterCreate(tx, j)
         && (d.latest == j.oldLatest || d.latest == Some(j.id))
       case LatestUpdated =>
         d.roots == Members(d.head) && d.head == HeadAfterCreate(tx, j) && d.latest == Some(j.id)
  }

  /** A disk a deletion may leave behind: a byte-exact root is there until the inventory drops it. */
  ghost predicate Deleting(d: Disk, tx: OperationId, j: DeleteJournal) {
    && d.creates == map[] && d.deletes == map[tx := j]
    && Settled(Members(j.headBefore), j.headBefore, j.oldLatest) && j.id in Members(j.headBefore)
    && Settled(Members(HeadAfterDelete(tx, j)), HeadAfterDelete(tx, j), j.newLatest)
    && FinishedFit(d) && IndexSound(d.index, d.head) && DeletedRowsSound(d, tx, j)
    && match j.state
       case Intended =>
         d.roots == Members(j.headBefore) && d.head == j.headBefore && d.latest == j.oldLatest
       case Staged =>
         && j.staged == Exact && d.latest == j.oldLatest
         && if j.id in d.roots
            then d.roots == Members(j.headBefore) && d.head == j.headBefore
            else
              && d.roots == Members(HeadAfterDelete(tx, j))
              && (d.head == j.headBefore || d.head == HeadAfterDelete(tx, j))
       case Uninventoried =>
         && j.staged == Exact && d.roots == Members(d.head) && d.head == HeadAfterDelete(tx, j)
         && (d.latest == j.oldLatest || d.latest == j.newLatest)
  }

  /** An index this deletion will update has the old rows, or lost exactly the deleted one. */
  ghost predicate DeletedRowsSound(d: Disk, tx: OperationId, j: DeleteJournal) {
    j.updateIndex && d.index.Some? ==>
      || d.index.value.head == HeadAfterDelete(tx, j)
      || (d.index.value.head == j.headBefore
          && (d.index.value.Rows() == Members(j.headBefore)
              || d.index.value.Rows() == Members(j.headBefore) - {j.id}))
  }

  /** At most one journal is active, and the disk is one its operation may leave behind. */
  ghost predicate Consistent(d: Disk) {
    if d.creates != map[] then Creating(d, Only(d.creates), d.creates[Only(d.creates)])
    else if d.deletes != map[] then Deleting(d, Only(d.deletes), d.deletes[Only(d.deletes)])
    else Quiet(d)
  }

  ghost function Only<V>(m: map<OperationId, V>): OperationId
    requires m != map[]
    ensures Only(m) in m
  {
    var tx :| tx in m;
    tx
  }

  lemma OnlyOne<V>(tx: OperationId, v: V)
    ensures map[tx := v] != map[] && Only(map[tx := v]) == tx
  {
    assert tx in map[tx := v];
  }

  // ---------------------------------------------------------------- meaning of a disk

  ghost function Meaning(d: Disk): Logical {
    if d.creates != map[] then CreateMeaning(d, Only(d.creates), d.creates[Only(d.creates)])
    else if d.deletes != map[] then DeleteMeaning(Only(d.deletes), d.deletes[Only(d.deletes)])
    else Logical(d.head, d.latest)
  }

  /** A creation counts from the moment its root is published. */
  ghost function CreateMeaning(d: Disk, tx: OperationId, j: CreateJournal): Logical {
    if j.state.Prepared? && j.id !in d.roots then Logical(j.headBefore, j.oldLatest)
    else Logical(HeadAfterCreate(tx, j), Some(j.id))
  }

  /** A deletion counts from the moment its journal says the copy is staged. */
  ghost function DeleteMeaning(tx: OperationId, j: DeleteJournal): Logical {
    if j.state.Intended? then Logical(j.headBefore, j.oldLatest)
    else Logical(HeadAfterDelete(tx, j), j.newLatest)
  }

  lemma CreatingMeans(d: Disk, tx: OperationId, j: CreateJournal)
    requires Creating(d, tx, j)
    ensures Consistent(d) && Meaning(d) == CreateMeaning(d, tx, j)
  {
    OnlyOne(tx, j);
  }

  lemma DeletingMeans(d: Disk, tx: OperationId, j: DeleteJournal)
    requires Deleting(d, tx, j)
    ensures Consistent(d) && Meaning(d) == DeleteMeaning(tx, j)
  {
    OnlyOne(tx, j);
  }

  lemma QuietMeans(d: Disk)
    requires Quiet(d)
    ensures Consistent(d) && Meaning(d) == Logical(d.head, d.latest)
  {
  }

  lemma ConsistentCases(d: Disk)
    requires Consistent(d)
    ensures d.creates == map[] && d.deletes == map[] ==> Quiet(d)
    ensures forall tx | tx in d.creates ::
      Creating(d, tx, d.creates[tx]) && d.creates == map[tx := d.creates[tx]] && d.deletes == map[]
    ensures forall tx | tx in d.deletes ::
      Deleting(d, tx, d.deletes[tx]) && d.deletes == map[tx := d.deletes[tx]] && d.creates == map[]
    ensures FinishedFit(d)
  {
  }

  /** The only effect a creation may have. */
  ghost function WithCheckpoint(l: Logical, id: SnapshotId, tx: OperationId): Logical {
    Logical(Added(l.head, id, tx), Some(id))
  }

  /** The only effect a deletion may have. */
  ghost function WithoutCheckpoint(l: Logical, id: SnapshotId, parent: Option<SnapshotId>, tx: OperationId): Logical {
    var latest := LatestAfterRemoval(l.head, id, l.latest, parent);
    Logical(Removed(l.head, id, tx), if latest.Ok? then latest.value else None)
  }

  ghost predicate Sound(l: Logical) {
    Settled(Members(l.head), l.head, l.latest)
  }

  lemma ConsistentMeansSound(d: Disk)
    requires Consistent(d)
    ensures Sound(Meaning(d))
    ensures |d.creates| + |d.deletes| <= 1
    ensures d.roots <= Members(Meaning(d).head) || d.deletes != map[]
  {
  }

  // ---------------------------------------------------------------- single writes of a creation

  lemma InventoryAdded(d: Disk, tx: OperationId, j: CreateJournal)
    requires Creating(d, tx, j) && j.id in d.roots && (j.state == Prepared || j.state == RootPublished)
    ensures AddIfHead(d.head, j.id, j.headBefore, tx) == Ok(HeadAfterCreate(tx, j))
    ensures var next := d.(head := HeadAfterCreate(tx, j));
      Creating(next, tx, j) && CreateMeaning(next, tx, j) == CreateMeaning(d, tx, j)
  {
    IndexStaysBehind(d.index, d.head, HeadAfterCreate(tx, j));
    MembersWere(j.headBefore);
  }

  /** Moving the inventory on makes an index stale, never wrong. */
  lemma IndexStaysBehind(index: Option<IndexFile>, head: Head, next: Head)
    requires IndexSound(index, head)
    requires next == head || (!next.Initial? && next.parent == head)
    ensures IndexSound(index, next)
  {
    if index.Some? && next != head {
      NoReturn(index.value.head, next);
    }
  }

  /** The journal may move on to `state` once the disk is what that state promises. */
  lemma CreateAdvances(d: Disk, tx: OperationId, j: CreateJournal, state: CreateState)
    requires Creating(d, tx, j) && j.id in d.roots
    requires match state
      case Prepared => false
      case RootPublished => j.state == Prepared
      case InventoryUpdated => d.head == HeadAfterCreate(tx, j) && !j.state.LatestUpdated?
      case LatestUpdated => d.head == HeadAfterCreate(tx, j) && d.latest == Some(j.id)
    ensures var next, later := d.(creates := map[tx := j.(state := state)]), j.(state := state);
      Creating(next, tx, later) && CreateMeaning(next, tx, later) == CreateMeaning(d, tx, j)
  {
  }

  lemma InventoriedRoot(d: Disk, tx: OperationId, j: CreateJournal)
    requires Creating(d, tx, j) && !j.state.Prepared? && !j.state.RootPublished?
    ensures j.id in d.roots && d.head == HeadAfterCreate(tx, j)
  {
  }

  lemma LatestSet(d: Disk, tx: OperationId, j: CreateJournal)
    requires Creating(d, tx, j) && j.state == InventoryUpdated
    ensures var next := d.(latest := Some(j.id));
      Creating(next, tx, j) && CreateMeaning(next, tx, j) == CreateMeaning(d, tx, j)
  {
  }

  /** Nothing was published, so the journal just goes. */
  lemma CreateDetaches(d: Disk, tx: OperationId, j: CreateJournal)
    requires Creating(d, tx, j) && j.state == Prepared && j.id !in d.roots
    ensures var next := d.(creates := map[]);
      Quiet(next) && Logical(next.head, next.latest) == CreateMeaning(d, tx, j)
  {
  }

  /** The journal says the creation is finished, and is then only there to be removed. */
  lemma CreateFinishes(d: Disk, tx: OperationId, j: CreateJournal)
    requires Creating(d, tx, j) && j.state == LatestUpdated
    ensures var next := d.(creates := map[], finishedCreates := d.finishedCreates + {Finished(tx, j.id)});
      Quiet(next) && Logical(next.head, next.latest) == CreateMeaning(d, tx, j)
  {
  }

  lemma CreateBegins(d: Disk, tx: OperationId, j: CreateJournal)
    requires Quiet(d) && j.id !in Ever(d.head) && j == CreateJournal(Prepared, j.id, d.latest, d.head)
    ensures Creating(d.(creates := map[tx := j]), tx, j)
  {
    MembersWere(d.head);
  }

  /** The commit point of a creation. */
  lemma RootPublishes(d: Disk, tx: OperationId, j: CreateJournal)
    requires Creating(d, tx, j) && j.state == Prepared && j.id !in d.roots
    ensures Creating(d.(roots := d.roots + {j.id}), tx, j)
  {
    assert d.head == j.headBefore;
  }

  /** Entering the rows of the new checkpoint, then the head they belong to. */
  lemma CreatedRowsIndexed(d: Disk, tx: OperationId, j: CreateJournal, tables: SI.Tables)
    requires Creating(d, tx, j) && j.state == LatestUpdated && IndexIsCurrent(d.index, j.headBefore)
    requires d.index.value.Rows() == Members(j.headBefore) && tables.snapshots.Keys == Members(j.headBefore) + {j.id}
    ensures var rows := d.(index := Some(IndexFile(j.headBefore, tables)));
      && Creating(rows, tx, j) && CreateMeaning(rows, tx, j) == CreateMeaning(d, tx, j)
      && var head := rows.(index := Some(IndexFile(d.head, tables)));
         Creating(head, tx, j) && CreateMeaning(head, tx, j) == CreateMeaning(d, tx, j)
  {
    assert Precedes(j.headBefore, j.headBefore);
    IndexStaysBehind(Some(IndexFile(j.headBefore, d.index.value.tables)), j.headBefore, d.head);
    assert j.headBefore != d.head;
  }

  /** An index that was current has neither the new row nor the new head yet. */
  lemma RowToEnter(d: Disk, tx: OperationId, j: CreateJournal)
    requires Creating(d, tx, j) && j.state == LatestUpdated && IndexIsCurrent(d.index, j.headBefore)
    requires d.index.value.Rows() == Members(j.headBefore)
    ensures j.id !in d.index.value.Rows() && Members(d.head) == d.index.value.Rows() + {j.id}
    ensures !IndexIsCurrent(d.index, d.head)
  {
    MembersWere(j.headBefore);
    assert j.headBefore != d.head;
  }

  // ---------------------------------------------------------------- single writes of a deletion

  /** Before `Staged` is durable anything may happen to the copy, and nothing is lost. */
  lemma CopyChanges(d: Disk, tx: OperationId, j: DeleteJournal, copy: StagedCopy)
    requires Deleting(d, tx, j) && j.state == Intended
    ensures Deleting(d.(deletes := map[tx := j.(staged := copy)]), tx, j.(staged := copy))
    ensures DeleteMeaning(tx, j.(staged := copy)) == DeleteMeaning(tx, j)
  {
  }

  lemma DeleteBegins(d: Disk, tx: OperationId, j: DeleteJournal)
    requires Quiet(d) && j.id in d.roots && j.state == Intended
    requires j.headBefore == d.head && j.oldLatest == d.latest
    requires j.updateIndex ==> IndexIsCurrent(d.index, d.head)
    requires Settled(Members(HeadAfterDelete(tx, j)), HeadAfterDelete(tx, j), j.newLatest)
    ensures Deleting(d.(deletes := map[tx := j]), tx, j)
  {
  }

  /** The journal a deletion begins with leads from the meaning before it to that without the checkpoint. */
  lemma DeletionIsSound(d: Disk, id: SnapshotId, parent: Option<SnapshotId>, tx: OperationId)
    requires Quiet(d) && id in d.roots
    ensures LatestAfterRemoval(d.head, id, d.latest, parent).Ok? && Consistent(d)
    ensures
      var j := DeleteJournal(Intended, id, d.latest, LatestAfterRemoval(d.head, id, d.latest, parent).value,
                             IndexIsCurrent(d.index, d.head), d.head, Missing);
      && Deleting(d.(deletes := map[tx := j]), tx, j)
      && DeleteMeaning(tx, j) == Meaning(d)
      && DeleteMeaning(tx, j.(state := Staged)) == WithoutCheckpoint(Meaning(d), id, parent, tx)
      && (j.updateIndex ==> HasRow(d.index, id))
  {
    hide Deleting;
    QuietMeans(d);
    LatestAfterRemovalFits(d.head, id, d.latest, parent);
    var j := DeleteJournal(Intended, id, d.latest, LatestAfterRemoval(d.head, id, d.latest, parent).value,
                           IndexIsCurrent(d.index, d.head), d.head, Missing);
    DeleteBegins(d, tx, j);
  }

  /** The commit point: an exact copy is durable, so the journal may say so. */
  lemma DeleteCommits(d: Disk, tx: OperationId, j: DeleteJournal)
    requires Deleting(d, tx, j) && j.state == Intended && j.staged == Exact
    ensures Deleting(d.(deletes := map[tx := j.(state := Staged)]), tx, j.(state := Staged))
  {
  }

  lemma OriginalUnlinked(d: Disk, tx: OperationId, j: DeleteJournal)
    requires Deleting(d, tx, j) && j.state == Staged
    ensures Deleting(d.(roots := d.roots - {j.id}), tx, j)
  {
    if j.id !in d.roots {
      assert d.roots - {j.id} == d.roots;
    }
  }

  lemma InventoryRemoved(d: Disk, tx: OperationId, j: DeleteJournal)
    requires Deleting(d, tx, j) && j.state == Staged && j.id !in d.roots
    ensures RemoveIfHead(d.head, j.id, j.headBefore, tx) == Ok(HeadAfterDelete(tx, j))
    ensures var next, later := d.(head := HeadAfterDelete(tx, j)), j.(state := Uninventoried);
      Deleting(next, tx, j) && Deleting(next.(deletes := map[tx := later]), tx, later)
  {
    IndexStaysBehind(d.index, d.head, HeadAfterDelete(tx, j));
  }

  lemma DeletedLatestSet(d: Disk, tx: OperationId, j: DeleteJournal)
    requires Deleting(d, tx, j) && j.state == Uninventoried
    ensures Deleting(d.(latest := j.newLatest), tx, j)
  {
  }

  /**
   The rows of the deleted checkpoint go, then the head moves on. A replay that finds the row
   gone already rolls back, so the references are never taken away twice.
   */
  lemma DeletedRowsIndexed(d: Disk, tx: OperationId, j: DeleteJournal, tables: SI.Tables)
    requires Deleting(d, tx, j) && j.state == Uninventoried && j.updateIndex && d.index.Some?
    requires j.id in d.index.value.Rows() && tables.snapshots.Keys == d.index.value.Rows() - {j.id}
    ensures d.index.value.head == j.headBefore
    ensures var rows := d.(index := Some(IndexFile(j.headBefore, tables)));
      Deleting(rows, tx, j) && Deleting(rows.(index := Some(IndexFile(d.head, tables))), tx, j)
  {
    assert Precedes(j.headBefore, j.headBefore) && Precedes(j.headBefore, d.head) && Precedes(d.head, d.head);
    NoReturn(j.headBefore, d.head);
    assert j.headBefore != d.head;
  }

  /** Nothing was deleted, so the journal just goes. */
  lemma DeleteDetaches(d: Disk, tx: OperationId, j: DeleteJournal)
    requires Deleting(d, tx, j) && j.state == Intended
    ensures var next := d.(deletes := map[]);
      Quiet(next) && Logical(next.head, next.latest) == DeleteMeaning(tx, j)
  {
  }

  lemma DeleteFinishes(d: Disk, tx: OperationId, j: DeleteJournal)
    requires Deleting(d, tx, j) && j.state == Uninventoried && d.latest == j.newLatest
    ensures var next := d.(deletes := map[], finishedDeletes := d.finishedDeletes + {Finished(tx, j.id)});
      Quiet(next) && Logical(next.head, next.latest) == DeleteMeaning(tx, j)
  {
    MembersWere(j.headBefore);
  }

  // ---------------------------------------------------------------- finished journals

  /** Finished journals may be removed at any time. */
  lemma FinishedGo(d: Disk, creates: set<Finished>, deletes: set<Finished>)
    requires Consistent(d) && creates <= d.finishedCreates && deletes <= d.finishedDeletes
    ensures var next := d.(finishedCreates := creates, finishedDeletes := deletes);
      && Consistent(next) && Meaning(next) == Meaning(d)
      && (Rested(d) <==> Rested(next)) && (Quiet(d) <==> Quiet(next))
  {
    var next := d.(finishedCreates := creates, finishedDeletes := deletes);
    ConsistentCases(d);
    if tx :| tx in d.creates {
      CreatingMeans(d, tx, d.creates[tx]);
      CreatingMeans(next, tx, d.creates[tx]);
    } else if tx :| tx in d.deletes {
      DeletingMeans(d, tx, d.deletes[tx]);
      DeletingMeans(next, tx, d.deletes[tx]);
    }
  }

  /** A finished creation has lost its root: recovery insists on it, so this is the end of every operation. */
  ghost predicate Blocked(d: Disk) {
    exists f :: f in d.finishedCreates && f.id !in d.roots
  }

  lemma NothingBlocks(d: Disk)
    requires forall f | f in d.finishedCreates :: f.id in d.roots
    ensures !Blocked(d)
  {
  }

  /** One journal is gone through: its root is missing, or it may go without unblocking anything. */
  lemma FinishedCreation(d: Disk, f: Finished)
    requires Consistent(d) && f in d.finishedCreates
    ensures f.id !in d.roots ==> Blocked(d)
    ensures var next := d.(finishedCreates := d.finishedCreates - {f});
      && Consistent(next) && Meaning(next) == Meaning(d) && (Quiet(d) <==> Quiet(next))
      && (f.id in d.roots ==> (Blocked(next) <==> Blocked(d)))
  {
    hide Consistent, Meaning, Quiet;
    FinishedGo(d, d.finishedCreates - {f}, d.finishedDeletes);
    var next := d.(finishedCreates := d.finishedCreates - {f});
    assert next == d.(finishedCreates := d.finishedCreates - {f}, finishedDeletes := d.finishedDeletes);
  }

  /** That takes the deletion of a checkpoint that was once created. */
  lemma BlockedWasDeleted(d: Disk)
    requires Consistent(d) && Blocked(d)
    ensures exists id :: id in Ever(Meaning(d).head) && id !in Members(Meaning(d).head)
  {
    var f :| f in d.finishedCreates && f.id !in d.roots;
    ConsistentCases(d);
    if tx :| tx in d.creates {
      CreatingMeans(d, tx, d.creates[tx]);
    } else if tx :| tx in d.deletes {
      DeletingMeans(d, tx, d.deletes[tx]);
    }
    OperationsAreRecorded(d.head);
    assert f.id in Ever(Meaning(d).head);
  }

  lemma LeftoversAreFew(d: Disk)
    requires Consistent(d)
    ensures Leftovers(d) <= Generation(Meaning(d).head)
  {
    ConsistentCases(d);
    OperationsAreRecorded(d.head);
    SmallerSet(d.finishedCreates, Additions(d.head));
    SmallerSet(d.finishedDeletes, Removals(d.head));
    if tx :| tx in d.creates {
      CreatingMeans(d, tx, d.creates[tx]);
    } else if tx :| tx in d.deletes {
      DeletingMeans(d, tx, d.deletes[tx]);
    }
  }

  // ---------------------------------------------------------------- disks at rest

  /**
   A disk on which every operation has had its whole effect. Finished journals may still lie
   there, and so may that of a deletion of which only the last write failed: the code warns about
   such failures, in recovery as elsewhere, and leaves the journal to the next recovery.
   */
  ghost predicate Rested(d: Disk) {
    && Consistent(d) && d.creates == map[]
    && (forall tx | tx in d.deletes :: d.deletes[tx].state == Uninventoried && d.latest == d.deletes[tx].newLatest)
  }

  lemma RestedMeans(d: Disk)
    requires Rested(d)
    ensures Settled(d.roots, d.head, d.latest) && IndexSound(d.index, d.head) && Meaning(d) == Logical(d.head, d.latest)
    ensures d.deletes == map[] <==> Quiet(d)
  {
    ConsistentCases(d);
  }

  /** At rest, with the journal of a deletion that recovery could not finish. */
  ghost predicate LeftBehind(d: Disk) {
    Rested(d) && d.deletes != map[]
  }

  lemma QuietRests(d: Disk)
    requires Quiet(d)
    ensures Rested(d)
  {
  }

  lemma DeletedRests(d: Disk, tx: OperationId, j: DeleteJournal)
    requires Deleting(d, tx, j) && j.state == Uninventoried && d.latest == j.newLatest
    ensures Rested(d)
  {
    DeletingMeans(d, tx, j);
  }

  /** Replacing the index of a disk at rest by one built from its roots. */
  lemma IndexReplaced(d: Disk, tables: SI.Tables)
    requires Rested(d) && tables.snapshots.Keys == d.roots
    ensures var next := d.(index := Some(IndexFile(d.head, tables)));
      Rested(next) && Meaning(next) == Meaning(d)
  {
    RestedMeans(d);
    var next := d.(index := Some(IndexFile(d.head, tables)));
    assert Precedes(d.head, d.head);
    ConsistentCases(d);
    if tx :| tx in d.deletes {
      DeletingMeans(next, tx, d.deletes[tx]);
      DeletingMeans(d, tx, d.deletes[tx]);
    }
  }

  // ---------------------------------------------------------------- what the index tables hold

  /** The live set of these snapshots; ids are content addresses, so each stands for one snapshot. */
  function LiveOf(content: SnapshotId -> SI.SnapshotFile, ids: set<SnapshotId>): SI.Live {
    map id | id in ids :: content(id)
  }

  /** The tables hold the summary rows and the reference counts of exactly the snapshots they list. */
  ghost predicate Indexed(content: SnapshotId -> SI.SnapshotFile, index: Option<IndexFile>) {
    index.Some? ==> SI.Current(index.value.tables, LiveOf(content, index.value.Rows()))
  }

  lemma CurrentHasRows(t: SI.Tables, content: SnapshotId -> SI.SnapshotFile, rows: set<SnapshotId>)
    requires SI.Current(t, LiveOf(content, rows))
    ensures t.snapshots.Keys == rows
  {
    assert LiveOf(content, rows).Keys == rows;
  }

  /** The two index transactions on tables that list `rows`: what they accept and what they leave. */
  lemma RowChangesAreTransactions(t: SI.Tables, content: SnapshotId -> SI.SnapshotFile, rows: set<SnapshotId>,
                                  id: SnapshotId)
    requires SI.Current(t, LiveOf(content, rows))
    ensures var delete := SI.Delete(id, content(id), content(id).project);
      if id in rows then SI.Accepts(t, delete) && SI.Current(SI.Step(t, delete), LiveOf(content, rows - {id}))
      else !SI.Accepts(t, delete) && SI.Step(t, delete) == t
    ensures var insert := SI.Insert(id, content(id));
      && (SI.Accepts(t, insert) ==> SI.Current(SI.Step(t, insert), LiveOf(content, rows + {id})))
      && (id !in rows ==> (SI.Accepts(t, insert) <==> SI.Indexable(LiveOf(content, rows + {id}))))
  {
    hide SI.Current, SI.Accepts, SI.Step, SI.Indexable;
    var live := LiveOf(content, rows);
    if id !in rows {
      SI.InsertAcceptedExactly(t, live, id, content(id));
    }
    SI.StepKeepsCurrent(t, live, SI.Delete(id, content(id), content(id).project));
    SI.StepKeepsCurrent(t, live, SI.Insert(id, content(id)));
    assert LiveOf(content, rows - {id}) == live - {id};
    assert LiveOf(content, rows + {id}) == live[id := content(id)];
  }

  /** An index whose head is the inventory head has the rows and counts of the live snapshots. */
  lemma CurrentIndexIsRight(d: Disk, content: SnapshotId -> SI.SnapshotFile)
    requires Consistent(d) && Indexed(content, d.index) && IndexIsCurrent(d.index, d.head)
    ensures SI.Describes(d.index.value.tables.snapshots, d.index.value.tables.refs, LiveOf(content, Members(d.head)))
  {
    ConsistentCases(d);
  }

  /**
   What the ids stand for: the file list of each snapshot, and its root file over the chunks there
   are. Ids and references are content addresses, so neither ever changes.
   */
  datatype Library = Library(
    content: SnapshotId -> SI.SnapshotFile, roots: SnapshotId -> SnapshotRoot,
    store: Manifests.Store, rules: ManifestShape.ManifestRules)

  /** The manifest of every snapshot lists its files, in its own order. */
  ghost predicate Listed(library: Library) {
    forall id :: IR.Lists(library.store, library.roots(id), library.content(id))
  }

  /** The finished journals are the same. */
  predicate FinishedSame(a: Disk, b: Disk) {
    a.finishedCreates == b.finishedCreates && a.finishedDeletes == b.finishedDeletes
  }

  predicate HasRow(index: Option<IndexFile>, id: SnapshotId) {
    index.Some? && id in index.value.Rows()
  }

  /** Where nothing failed to be written or removed, no journal of a deletion is left beside those there were. */
  ghost predicate Tidied(before: Disk, after: Disk, faults: Faults) {
    && (!faults.journal ==> after.deletes == map[])
    && (!faults.cleanup ==> after.finishedDeletes <= before.finishedDeletes)
  }

  const NO_CHECKPOINTS := Disk({}, Initial, None, map[], map[], {}, {}, None)

  /** An operation that was successful leaves nothing to do where nothing could fail. */
  ghost predicate Finishes(d: Disk, faults: Faults) {
    && (!faults.journal ==> Quiet(d))
    && (!faults.journal && !faults.cleanup ==> Leftovers(d) == 0)
  }

  /** What a creation tells the index: the new row, if the columns can hold it, or the first index at all. */
  ghost predicate ToldIndex(library: Library, index: Option<IndexFile>, head: Head, id: SnapshotId, indexOpen: bool,
                            faults: Faults)
  {
    !faults.index ==>
      if indexOpen then
        IndexIsCurrent(index, head) <==> SI.Indexable(LiveOf(library.content, Members(head)))
      else
        !faults.rebuild && Members(head) == {id} && Countable(library, {id}) ==> IndexIsCurrent(index, head)
  }

  lemma ToldNothing(library: Library, index: Option<IndexFile>, head: Head, id: SnapshotId, indexOpen: bool,
                    faults: Faults)
    requires faults.index
    ensures ToldIndex(library, index, head, id, indexOpen, faults)
  {
  }

  /** Nothing is going on, and the index is up to date. */
  ghost predicate IndexStands(d: Disk) {
    Quiet(d) && IndexIsCurrent(d.index, d.head)
  }

  /** A creation that found a current index, or no checkpoint at all, leaves a current index where nothing failed. */
  ghost predicate IndexFollows(library: Library, before: Disk, was: Head, after: Disk, id: SnapshotId, faults: Faults) {
    && (!faults.index && IndexStands(before) ==>
          (IndexIsCurrent(after.index, after.head) <==> SI.Indexable(LiveOf(library.content, Members(after.head)))))
    && (!faults.index && !faults.rebuild && Members(was) == {} && Countable(library, {id}) ==>
          IndexIsCurrent(after.index, after.head))
  }

  lemma ToldIndexFollows(library: Library, before: Disk, was: Head, after: Disk, id: SnapshotId, tx: OperationId,
                         indexOpen: bool, faults: Faults)
    requires Listed(library) && after.head == Added(was, id, tx)
    requires ToldIndex(library, after.index, after.head, id, indexOpen, faults)
    requires IndexStands(before) ==> indexOpen
    ensures IndexFollows(library, before, was, after, id, faults)
  {
    hide SI.Indexable, Quiet, Listed, Countable, IndexIsCurrent, LiveOf;
    if Members(was) == {} && Countable(library, {id}) {
      assert Members(after.head) == {id};
      CountableIsIndexable(library, {id});
    }
  }

  lemma OnlyMember(head: Head, id: SnapshotId)
    requires id in Members(head)
    ensures |Members(head)| == 1 <==> Members(head) == {id}
  {
    if |Members(head)| == 1 {
      SmallerSet({id}, Members(head));
      assert |Members(head) - {id}| == 0;
    }
  }

  /** Nothing happened, and nothing ever will. */
  ghost predicate Halted(before: Disk, after: Disk) {
    Blocked(after) && Meaning(after) == Meaning(before)
  }

  lemma NoRootReturns(d: Disk, f: Finished)
    requires Consistent(d) && f in d.finishedDeletes
    ensures f.id !in d.roots
  {
    ConsistentCases(d);
  }

  lemma SmallerSet<T>(part: set<T>, whole: set<T>)
    requires part <= whole
    ensures |part| <= |whole|
  {
    assert whole == part + (whole - part);
  }

  predicate IsLeast(ids: set<SnapshotId>, id: SnapshotId) {
    id in ids && forall other | other in ids - {id} :: id < other
  }

  lemma {:induction false} LeastExists(ids: set<SnapshotId>)
    requires ids != {}
    ensures exists id :: IsLeast(ids, id)
    decreases ids
  {
    var id :| id in ids;
    if ids - {id} == {} {
      assert IsLeast(ids, id);
    } else {
      LeastExists(ids - {id});
      var least :| IsLeast(ids - {id}, least);
      LesserIsLeast(ids, id, least);
    }
  }

  lemma LesserIsLeast(ids: set<SnapshotId>, id: SnapshotId, least: SnapshotId)
    requires id in ids && IsLeast(ids - {id}, least)
    ensures IsLeast(ids, if id < least then id else least)
  {
    forall other | other in ids
      ensures other == id || other == least || least < other
    {
      assert other != id ==> other in ids - {id};
      assert other != id && other != least ==> other in ids - {id} - {least};
    }
  }

  /** These snapshots in the order of their ids. */
  ghost predicate IsListing(listing: seq<SnapshotId>, ids: set<SnapshotId>) {
    && (forall i, j | 0 <= i < j < |listing| :: listing[i] < listing[j])
    && SI.IdSet(listing) == ids
  }

  lemma ListingIsDistinct(listing: seq<SnapshotId>, ids: set<SnapshotId>)
    requires IsListing(listing, ids)
    ensures Distinct(listing)
  {
  }

  lemma LeastComesFirst(ids: set<SnapshotId>, id: SnapshotId, rest: seq<SnapshotId>)
    requires IsLeast(ids, id) && IsListing(rest, ids - {id})
    ensures IsListing([id] + rest, ids)
  {
    forall i | 0 <= i < |rest|
      ensures id < rest[i]
    {
      assert rest[i] in SI.IdSet(rest);
    }
    assert SI.IdSet([id] + rest) == {id} + SI.IdSet(rest);
  }

  lemma OneLeast(ids: set<SnapshotId>, a: SnapshotId, b: SnapshotId)
    requires IsLeast(ids, a) && IsLeast(ids, b)
    ensures a == b
  {
    assert a == b || a in ids - {b};
    assert a == b || b in ids - {a};
  }

  function Least(ids: set<SnapshotId>): (id: SnapshotId)
    requires ids != {}
    ensures IsLeast(ids, id)
  {
    LeastExists(ids);
    assert forall a, b | IsLeast(ids, a) && IsLeast(ids, b) :: a == b by {
      forall a, b | IsLeast(ids, a) && IsLeast(ids, b) ensures a == b { OneLeast(ids, a, b); }
    }
    var id :| IsLeast(ids, id);
    id
  }

  function Listing(ids: set<SnapshotId>): (listing: seq<SnapshotId>)
    ensures IsListing(listing, ids)
    decreases ids
  {
    if ids == {} then []
    else
      var id := Least(ids);
      LeastComesFirst(ids, id, Listing(ids - {id}));
      [id] + Listing(ids - {id})
  }

  /** A rebuild over these snapshots, in this order, succeeds. */
  ghost predicate CountableList(library: Library, listing: seq<SnapshotId>) {
    var snapshots := IR.RootsIn(listing, library.roots);
    && IR.AllAdmitted(library.store, library.rules, snapshots)
    && RA.Rebuildable(library.store, AllRoots(snapshots), MAX_LEVELS)
  }

  lemma CountableListMeans(library: Library, listing: seq<SnapshotId>)
    ensures var snapshots := IR.RootsIn(listing, library.roots);
      CountableList(library, listing) <==>
      && IR.AllAdmitted(library.store, library.rules, snapshots)
      && RA.Rebuildable(library.store, AllRoots(snapshots), MAX_LEVELS)
  {
  }

  /** A rebuild reads the snapshots in the order of their ids. */
  ghost predicate Countable(library: Library, ids: set<SnapshotId>) {
    forall listing | IsListing(listing, ids) :: CountableList(library, listing)
  }

  /** What could be counted anew can also be entered one by one. */
  lemma CountableIsIndexable(library: Library, ids: set<SnapshotId>)
    requires Countable(library, ids) && Listed(library)
    ensures SI.Indexable(LiveOf(library.content, ids))
  {
    hide SI.Indexable, IR.AllAdmitted, RA.Rebuildable, IR.Lists;
    var listing := Listing(ids);
    assert CountableList(library, listing);
    ListingIsDistinct(listing, ids);
    var headings := (id: SnapshotId) => IR.HeadingOf(library.content(id));
    IR.RebuildableIsIndexable(library.store, library.rules, listing, library.roots, headings, library.content);
    assert IR.LiveIn(listing, library.content) == LiveOf(library.content, ids);
  }

  predicate AnyJournal(d: Disk) {
    d.creates != map[] || d.deletes != map[] || Leftovers(d) > 0
  }

  /** Of the journals `named` those still to do are there, and those done are gone unless a cleanup may fail. */
  ghost predicate ClearedUpTo(all: set<Finished>, named: set<Finished>, todo: set<Finished>, now: set<Finished>,
                              cleanup: bool)
  {
    && (all - named) + todo <= now <= all
    && (!cleanup ==> now == (all - named) + todo)
  }

  lemma OneMoreCleared(all: set<Finished>, named: set<Finished>, todo: set<Finished>, now: set<Finished>,
                       cleanup: bool, f: Finished)
    requires ClearedUpTo(all, named, todo, now, cleanup) && f in todo && todo <= named <= all
    ensures f in now && ClearedUpTo(all, named, todo - {f}, now - {f}, cleanup)
    ensures cleanup ==> ClearedUpTo(all, named, todo - {f}, now, cleanup)
  {
  }

  lemma NothingCleared(all: set<Finished>, named: set<Finished>, cleanup: bool)
    requires named <= all
    ensures ClearedUpTo(all, named, named, all, cleanup)
  {
  }

  lemma ClearedTells(all: set<Finished>, named: set<Finished>, todo: set<Finished>, now: set<Finished>, cleanup: bool)
    requires ClearedUpTo(all, named, todo, now, cleanup)
    ensures all - named <= now <= all
    ensures todo == {} && !cleanup ==> now == all - named
  {
  }

  /** The writes that end the journal of an operation: its last state, and its removal. */
  function EndingWrites(faults: Faults): nat {
    if faults.journal then 0 else if faults.cleanup then 1 else 2
  }

  class Repository {
    const library: Library
    var disk: Disk
    var budget: nat

    /** A new repository: no checkpoints, nothing going on. */
    constructor (library: Library, budget: nat)
      requires Listed(library)
      ensures this.library == library && disk == NO_CHECKPOINTS
      ensures Quiet(disk) && Meaning(disk) == Logical(Initial, None) && Valid() && !Blocked(disk)
    {
      this.library := library;
      disk := NO_CHECKPOINTS;
      this.budget := budget;
    }

    ghost predicate Valid()
      reads this`disk
    {
      Listed(library) && Indexed(library.content, disk.index)
    }

    /** One atomic durable write; a process out of budget stops before it. */
    method Write(next: Disk) returns (res: Result<Unit, Failure>)
      modifies this
      ensures res.Ok? ==> disk == next && budget == old(budget) - 1
      ensures res.Err? ==> res.error == Stopped && disk == old(disk) && budget == old(budget) == 0
    {
      if budget == 0 {
        return Err(Stopped);
      }
      budget := budget - 1;
      disk := next;
      return Ok(Done);
    }

    // -------------------------------------------------------------- creation

    /** Persists a later state of the creation journal. */
    method Transition(tx: OperationId, j: CreateJournal, state: CreateState)
      returns (res: Result<CreateJournal, Failure>)
      modifies this
      ensures res.Ok? ==> res.value == j.(state := state) && disk == old(disk).(creates := map[tx := res.value])
      ensures res.Err? ==> res.error == Stopped && disk == old(disk) && budget == 0
      ensures res.Ok? ==> budget + 1 <= old(budget)
      ensures budget <= old(budget) <= budget + 1
    {
      var _ :- Write(disk.(creates := map[tx := j.(state := state)]));
      return Ok(j.(state := state));
    }

    /** Adds the published root to the inventory, once. */
    method UpdateInventory(tx: OperationId, j: CreateJournal) returns (res: Result<CreateJournal, Failure>)
      requires Creating(disk, tx, j) && j.id in disk.roots && (j.state == Prepared || j.state == RootPublished)
      requires Valid()
      modifies this
      ensures Valid()
      ensures Consistent(disk) && Meaning(disk) == old(Meaning(disk))
      ensures res.Ok? ==> res.value == j.(state := InventoryUpdated) && Creating(disk, tx, res.value)
      ensures res.Ok? ==> disk.latest == old(disk.latest) && disk.index == old(disk.index)
      ensures disk.roots == old(disk.roots) && FinishedSame(old(disk), disk)
      ensures res.Err? ==> res.error == Stopped && budget == 0
      ensures res.Ok? ==> budget + 2 <= old(budget)
      ensures budget <= old(budget) <= budget + 2
    {
      hide Creating, Consistent, Meaning, CreateMeaning, IndexSound, Indexed;
      CreatingMeans(disk, tx, j);
      InventoryAdded(disk, tx, j);
      var next := AddIfHead(disk.head, j.id, j.headBefore, tx);
      var _ :- Write(disk.(head := next.value));
      CreatingMeans(disk, tx, j);
      CreateAdvances(disk, tx, j, InventoryUpdated);
      res := Transition(tx, j, InventoryUpdated);
      if res.Ok? {
        CreatingMeans(disk, tx, res.value);
      }
    }

    /** Recovery points `refs/latest` at the new checkpoint unless it already does. */
    method RecoverLatest(tx: OperationId, j: CreateJournal) returns (res: Result<CreateJournal, Failure>)
      requires Creating(disk, tx, j) && j.state == InventoryUpdated
      requires Valid()
      modifies this
      ensures Valid()
      ensures Consistent(disk) && Meaning(disk) == old(Meaning(disk))
      ensures res.Ok? ==> res.value == j.(state := LatestUpdated) && Creating(disk, tx, res.value)
      ensures disk.roots == old(disk.roots) && FinishedSame(old(disk), disk)
      ensures res.Err? ==> res.error == Stopped && budget == 0
      ensures budget <= old(budget) <= budget + 2
    {
      CreatingMeans(disk, tx, j);
      assert disk.head == HeadAfterCreate(tx, j) && j.id in disk.roots;
      if disk.latest == Some(j.id) {
        // The process stopped after it moved the reference and before it could say so.
      } else if disk.latest == j.oldLatest {
        LatestSet(disk, tx, j);
        var _ :- Write(disk.(latest := Some(j.id)));
        CreatingMeans(disk, tx, j);
      } else {
        // Keeping the checkpoint as a branch: nothing else moves the reference meanwhile.
        assert false;
      }
      CreateAdvances(disk, tx, j, LatestUpdated);
      res := Transition(tx, j, LatestUpdated);
      if res.Ok? {
        CreatingMeans(disk, tx, res.value);
      }
    }

    /** Brings an interrupted creation to its end, or removes its journal if nothing was published. */
    method RecoverCreation(tx: OperationId, faults: Faults) returns (res: Result<Unit, Failure>)
      requires Consistent(disk) && tx in disk.creates
      requires Valid()
      modifies this
      ensures Valid()
      ensures Consistent(disk) && Meaning(disk) == old(Meaning(disk))
      ensures disk.roots == old(disk.roots) && disk.finishedDeletes == old(disk.finishedDeletes)
      ensures Blocked(disk) <==> old(Blocked(disk))
      ensures forall f | f in old(disk.finishedCreates) && f !in disk.finishedCreates :: f.id in disk.roots
      ensures disk.finishedCreates <= old(disk.finishedCreates) + {Finished(tx, old(disk.creates[tx].id))}
      ensures res.Ok? && !faults.cleanup ==> disk.finishedCreates <= old(disk.finishedCreates)
      ensures res.Ok? ==> Quiet(disk)
      ensures res.Err? ==> res.error == Stopped && budget == 0
      ensures budget <= old(budget) <= budget + 6
    {
      ConsistentCases(disk);
      var j := disk.creates[tx];
      CreatingMeans(disk, tx, j);
      if j.state == Prepared && j.id !in disk.roots {
        CreateDetaches(disk, tx, j);
        res := Write(disk.(creates := map[]));
        return;
      }
      assert j.id in disk.roots;
      if j.state == Prepared || j.state == RootPublished {
        j :- UpdateInventory(tx, j);
      }
      if j.state == InventoryUpdated {
        j :- RecoverLatest(tx, j);
      }
      res := CommitCreation(tx, j, faults);
    }

    /** Writes that the creation is finished, and removes the journal or only warns that it could not. */
    method CommitCreation(tx: OperationId, j: CreateJournal, faults: Faults) returns (res: Result<Unit, Failure>)
      requires Creating(disk, tx, j) && j.state == LatestUpdated
      requires Valid()
      modifies this
      ensures Valid()
      ensures Consistent(disk) && Meaning(disk) == old(Meaning(disk))
      ensures disk.roots == old(disk.roots) && disk.finishedDeletes == old(disk.finishedDeletes)
      ensures Blocked(disk) <==> old(Blocked(disk))
      ensures forall f | f in old(disk.finishedCreates) && f !in disk.finishedCreates :: f.id in disk.roots
      ensures disk.finishedCreates <= old(disk.finishedCreates) + {Finished(tx, j.id)}
      ensures res.Ok? && !faults.cleanup ==> disk.finishedCreates <= old(disk.finishedCreates)
      ensures disk.index == old(disk.index) && disk.head == old(disk.head)
      ensures res.Ok? ==> Quiet(disk)
      ensures res.Err? ==> res.error == Stopped && budget == 0
      ensures res.Err? && disk.creates == map[] ==> Finished(tx, j.id) in disk.finishedCreates
      ensures res.Ok? ==> budget + EndingWrites(faults) <= old(budget)
      ensures budget <= old(budget) <= budget + 2
    {
      CreatingMeans(disk, tx, j);
      assert j.id in disk.roots;
      CreateFinishes(disk, tx, j);
      var done := Finished(tx, j.id);
      assert tx in disk.creates;
      var _ :- Write(disk.(creates := map[], finishedCreates := disk.finishedCreates + {done}));
      QuietMeans(disk);
      var skipCleanup := *;
      if !(faults.cleanup && skipCleanup) {
        FinishedGo(disk, disk.finishedCreates - {done}, disk.finishedDeletes);
        var _ :- Write(disk.(finishedCreates := disk.finishedCreates - {done}));
      }
      return Ok(Done);
    }

    // -------------------------------------------------------------- deletion

    /** Takes the row out of the index and moves its head on, both or only the first, or neither. */
    method DeleteFromIndex(tx: OperationId, j: DeleteJournal) returns (res: Result<Unit, Failure>)
      requires Deleting(disk, tx, j) && j.state == Uninventoried
      requires Valid()
      modifies this
      ensures Valid()
      ensures Deleting(disk, tx, j) && disk.latest == old(disk.latest) && FinishedSame(old(disk), disk)
      ensures disk.head == old(disk.head)
      ensures res.Ok? && j.updateIndex && HasRow(old(disk.index), j.id) ==> IndexIsCurrent(disk.index, disk.head)
      ensures res.Err? ==> res.error == Stopped && budget == 0
      ensures res.Ok? && j.updateIndex && HasRow(old(disk.index), j.id) ==> budget + 2 <= old(budget)
      ensures budget <= old(budget) <= budget + 2
    {
      hide Deleting, SI.Current, SI.Accepts, SI.Step, Listed;
      if j.updateIndex && disk.index.Some? {
        var index := disk.index.value;
        RowChangesAreTransactions(index.tables, library.content, index.Rows(), j.id);
        var connection := new SI.IndexConnection.Open(index.tables);
        var deleted := connection.DeleteSnapshot(library.content(j.id).project, j.id, library.content(j.id));
        if deleted.Ok? {
          var tables := connection.Contents();
          CurrentHasRows(tables, library.content, index.Rows() - {j.id});
          DeletedRowsIndexed(disk, tx, j, tables);
          var _ :- Write(disk.(index := Some(IndexFile(index.head, tables))));
          var _ :- Write(disk.(index := Some(IndexFile(disk.head, tables))));
        }
      }
      return Ok(Done);
    }

    /** Everything after the original is gone. A failed index update only produces a warning. */
    method FinishDeletion(tx: OperationId, start: DeleteJournal, faults: Faults) returns (res: Result<Unit, Failure>)
      requires Deleting(disk, tx, start) && start.id !in disk.roots
        && (start.state == Staged || start.state == Uninventoried)
      requires Valid()
      modifies this
      ensures Valid()
      ensures disk.finishedCreates == old(disk.finishedCreates)
      ensures Consistent(disk) && Meaning(disk) == old(Meaning(disk))
      ensures res.Ok? ==> Rested(disk) && Tidied(old(disk), disk, faults)
      ensures res.Ok? && !faults.index && start.updateIndex && HasRow(old(disk.index), start.id) ==>
        IndexIsCurrent(disk.index, disk.head)
      ensures res.Err? ==> res.error == Stopped && budget == 0
      ensures res.Ok? ==> budget + EndingWrites(faults) + (if start.state == Staged then 3 else 1) <= old(budget)
      ensures budget <= old(budget) <= budget + 7
    {
      hide Indexed, Listed;
      var j := start;
      DeletingMeans(disk, tx, j);
      if j.state == Staged {
        InventoryRemoved(disk, tx, j);
        var next := RemoveIfHead(disk.head, j.id, j.headBefore, tx);
        var _ :- Write(disk.(head := next.value));
        DeletingMeans(disk, tx, j);
        j := j.(state := Uninventoried);
        var _ :- Write(disk.(deletes := map[tx := j]));
        DeletingMeans(disk, tx, j);
      }
      DeletedLatestSet(disk, tx, j);
      var _ :- Write(disk.(latest := j.newLatest));
      DeletingMeans(disk, tx, j);
      var skipIndex := *;
      if !(faults.index && skipIndex) {
        res := DeleteFromIndex(tx, j);
        DeletingMeans(disk, tx, j);
        if res.Err? {
          return;
        }
      }
      res := CommitDeletion(tx, j, faults);
    }

    /** The last journal write and the cleanup, of which either may fail with a warning. */
    method CommitDeletion(tx: OperationId, j: DeleteJournal, faults: Faults) returns (res: Result<Unit, Failure>)
      requires Deleting(disk, tx, j) && j.state == Uninventoried && disk.latest == j.newLatest
      requires Valid()
      modifies this
      ensures Valid()
      ensures disk.finishedCreates == old(disk.finishedCreates)
      ensures Consistent(disk) && Meaning(disk) == old(Meaning(disk))
      ensures res.Ok? ==> Rested(disk) && Tidied(old(disk), disk, faults)
      ensures disk.index == old(disk.index) && disk.head == old(disk.head)
      ensures res.Err? ==> res.error == Stopped && budget == 0
      ensures res.Err? && disk.deletes == map[] ==> Finished(tx, j.id) in disk.finishedDeletes
      ensures res.Ok? ==> budget + EndingWrites(faults) <= old(budget)
      ensures budget <= old(budget) <= budget + 2
    {
      hide Indexed, Listed;
      DeletingMeans(disk, tx, j);
      var skipJournal, skipCleanup := *, *;
      if faults.journal && skipJournal {
        DeletedRests(disk, tx, j);
        return Ok(Done);
      }
      DeleteFinishes(disk, tx, j);
      var done := Finished(tx, j.id);
      assert tx in disk.deletes;
      var _ :- Write(disk.(deletes := map[], finishedDeletes := disk.finishedDeletes + {done}));
      QuietMeans(disk);
      QuietRests(disk);
      if !(faults.cleanup && skipCleanup) {
        FinishedGo(disk, disk.finishedCreates, disk.finishedDeletes - {done});
        var _ :- Write(disk.(finishedDeletes := disk.finishedDeletes - {done}));
      }
      return Ok(Done);
    }

    /** Aborts a deletion whose commit point was not reached, finishes any other. */
    method RecoverDeletion(tx: OperationId, faults: Faults) returns (res: Result<Unit, Failure>)
      requires Consistent(disk) && tx in disk.deletes
      requires Valid()
      modifies this
      ensures Valid()
      ensures disk.finishedCreates == old(disk.finishedCreates)
      ensures Consistent(disk) && Meaning(disk) == old(Meaning(disk))
      ensures res.Ok? ==> Rested(disk) && Tidied(old(disk), disk, faults)
      ensures res.Err? ==> res.error == Stopped && budget == 0
      ensures budget <= old(budget) <= budget + 8
    {
      hide Indexed, Listed;
      ConsistentCases(disk);
      var j := disk.deletes[tx];
      DeletingMeans(disk, tx, j);
      var originalExists := j.id in disk.roots;
      if originalExists && j.state == Intended {
        DeleteDetaches(disk, tx, j);
        res := Write(disk.(deletes := map[]));
        return;
      }
      assert j.staged == Exact;
      if originalExists {
        assert j.state == Staged;
        OriginalUnlinked(disk, tx, j);
        var _ :- Write(disk.(roots := disk.roots - {j.id}));
        DeletingMeans(disk, tx, j);
      }
      assert j.state != Intended;
      res := FinishDeletion(tx, j, faults);
    }

    // -------------------------------------------------------------- finished journals

    /** Removes finished creation journals, in any order; one whose root is gone ends everything. */
    method ClearFinishedCreations(names: set<Finished>, faults: Faults) returns (res: Result<Unit, Failure>)
      requires Consistent(disk) && names <= disk.finishedCreates
      requires Valid()
      modifies this
      ensures Valid()
      ensures Consistent(disk) && Meaning(disk) == old(Meaning(disk)) && (Quiet(disk) <==> old(Quiet(disk)))
      ensures disk == old(disk).(finishedCreates := disk.finishedCreates)
      ensures old(disk.finishedCreates) - names <= disk.finishedCreates <= old(disk.finishedCreates)
      ensures Blocked(disk) <==> old(Blocked(disk))
      ensures res.Ok? ==> forall f | f in names :: f.id in disk.roots
      ensures res.Ok? && !faults.cleanup ==> disk.finishedCreates == old(disk.finishedCreates) - names
      ensures res.Err? ==> (res.error == Refused && Blocked(disk)) || (res.error == Stopped && budget == 0)
      ensures budget <= old(budget) <= budget + |names|
    {
      hide Consistent, Meaning, Quiet, Blocked, Indexed, Listed, ClearedUpTo;
      ghost var all := disk.finishedCreates;
      var todo := names;
      assert ClearedUpTo(all, names, names, all, faults.cleanup) by {
        NothingCleared(all, names, faults.cleanup);
      }
      while todo != {}
        invariant todo <= names && Valid()
        invariant Consistent(disk) && Meaning(disk) == old(Meaning(disk)) && (Quiet(disk) <==> old(Quiet(disk)))
        invariant disk == old(disk).(finishedCreates := disk.finishedCreates)
        invariant ClearedUpTo(all, names, todo, disk.finishedCreates, faults.cleanup)
        invariant forall f | f in names - todo :: f.id in disk.roots
        invariant Blocked(disk) <==> old(Blocked(disk))
        invariant budget <= old(budget) <= budget + |names| - |todo|
        decreases todo
      {
        var f :| f in todo;
        OneMoreCleared(all, names, todo, disk.finishedCreates, faults.cleanup, f);
        FinishedCreation(disk, f);
        if f.id !in disk.roots {
          ClearedTells(all, names, todo, disk.finishedCreates, faults.cleanup);
          return Err(Refused);
        }
        var skipCleanup := *;
        if !(faults.cleanup && skipCleanup) {
          var removed := Write(disk.(finishedCreates := disk.finishedCreates - {f}));
          if removed.Err? {
            ClearedTells(all, names, todo, disk.finishedCreates, faults.cleanup);
            return removed;
          }
        }
        todo := todo - {f};
      }
      ClearedTells(all, names, todo, disk.finishedCreates, faults.cleanup);
      return Ok(Done);
    }

    /** Removes finished deletion journals; their roots never are in the way. */
    method ClearFinishedDeletions(faults: Faults) returns (res: Result<Unit, Failure>)
      requires Consistent(disk)
      requires Valid()
      modifies this
      ensures Valid()
      ensures disk.finishedCreates == old(disk.finishedCreates)
      ensures Consistent(disk) && Meaning(disk) == old(Meaning(disk)) && (Rested(disk) <==> old(Rested(disk)))
      ensures disk == old(disk).(finishedDeletes := disk.finishedDeletes)
      ensures disk.finishedDeletes <= old(disk.finishedDeletes)
      ensures res.Ok? && !faults.cleanup ==> disk.finishedDeletes == {}
      ensures res.Err? ==> res.error == Stopped && budget == 0
      ensures budget <= old(budget) <= budget + |old(disk.finishedDeletes)|
    {
      hide Consistent, Meaning, Indexed, Listed;
      var todo := disk.finishedDeletes;
      while todo != {}
        invariant todo <= disk.finishedDeletes <= old(disk.finishedDeletes) && Valid()
        invariant Consistent(disk) && Meaning(disk) == old(Meaning(disk)) && (Rested(disk) <==> old(Rested(disk)))
        invariant disk == old(disk).(finishedDeletes := disk.finishedDeletes)
        invariant !faults.cleanup ==> disk.finishedDeletes == todo
        invariant budget <= old(budget) <= budget + |old(disk.finishedDeletes)| - |todo|
        decreases todo
      {
        var f :| f in todo;
        NoRootReturns(disk, f);
        todo := todo - {f};
        var skipCleanup := *;
        if !(faults.cleanup && skipCleanup) {
          FinishedGo(disk, disk.finishedCreates, disk.finishedDeletes - {f});
          var _ :- Write(disk.(finishedDeletes := disk.finishedDeletes - {f}));
        }
      }
      return Ok(Done);
    }

    /**
     Goes through all creation journals by name: finished ones on both sides of the one that is
     still active, if there is one.
     */
    method RecoverCreations(faults: Faults) returns (res: Result<Unit, Failure>)
      requires Consistent(disk)
      requires Valid()
      modifies this
      ensures Valid()
      ensures Consistent(disk) && Meaning(disk) == old(Meaning(disk)) && disk.roots == old(disk.roots)
      ensures Blocked(disk) <==> old(Blocked(disk))
      ensures disk.finishedDeletes == old(disk.finishedDeletes)
      ensures res.Ok? ==> disk.creates == map[] && !old(Blocked(disk))
      ensures res.Ok? ==> if old(disk.creates) == map[] then disk.deletes == old(disk.deletes) else Quiet(disk)
      ensures old(disk.creates) == map[] ==> disk.index == old(disk.index) && disk.head == old(disk.head)
      ensures res.Ok? && !faults.cleanup ==> disk.finishedCreates == {}
      ensures res.Err? ==> (res.error == Refused && Blocked(disk)) || (res.error == Stopped && budget == 0)
      ensures budget <= old(budget) <= budget + (if old(disk.creates) == map[] then 0 else 6)
        + |old(disk.finishedCreates)|
    {
      hide Meaning, Indexed, Listed, Consistent, Quiet;
      if tx :| tx in disk.creates {
        ghost var all := disk.finishedCreates;
        var before := set f | f in disk.finishedCreates && f.tx < tx;
        var after := disk.finishedCreates - before;
        assert |before| + |after| == |all| by {
          assert before + after == all && before !! after;
        }
        var _ :- ClearFinishedCreations(before, faults);
        var _ :- RecoverCreation(tx, faults);
        assert |after * disk.finishedCreates| <= |after| by {
          SmallerSet(after * disk.finishedCreates, after);
        }
        var _ :- ClearFinishedCreations(after * disk.finishedCreates, faults);
      } else {
        var _ :- ClearFinishedCreations(disk.finishedCreates, faults);
      }
      return Ok(Done);
    }

    // -------------------------------------------------------------- the exclusive lock

    /** The tables of these snapshots, counted anew from their roots and manifests, if they can be. */
    method BuildTables(ids: set<SnapshotId>) returns (tables: Option<SI.Tables>)
      requires Listed(library)
      ensures tables.Some? ==> SI.Current(tables.value, LiveOf(library.content, ids))
      ensures Countable(library, ids) ==> tables.Some?
    {
      hide SI.Current, IR.Rebuilt, IR.Lists, CountableList;
      var listing := Listing(ids);
      ListingIsDistinct(listing, ids);
      var headings := (id: SnapshotId) => IR.HeadingOf(library.content(id));
      var built := IR.BuildSnapshotIndex(library.store, library.rules, listing, library.roots, headings);
      CountableListMeans(library, listing);
      if built.Err? {
        return None;
      }
      IR.RebuildIsCurrent(library.store, library.rules, listing, library.roots, headings, library.content, built.value);
      assert IR.LiveIn(listing, library.content) == LiveOf(library.content, ids);
      return Some(built.value);
    }

    /** Replaces the index by one built from the roots, if they match the inventory and can be counted. */
    method RebuildIndex() returns (res: Result<Unit, Failure>)
      requires Valid()
      modifies this
      ensures Valid()
      ensures disk == old(disk)
        || (disk.index.Some? && disk == old(disk).(index := Some(IndexFile(disk.head, disk.index.value.tables)))
            && disk.index.value.Rows() == disk.roots && disk.roots == Members(disk.head))
      ensures res.Ok? && disk.roots == Members(disk.head) && Countable(library, disk.roots) ==>
        IndexIsCurrent(disk.index, disk.head)
      ensures res.Err? ==> res.error == Stopped && budget == 0
      ensures budget <= old(budget) <= budget + 1
    {
      hide SI.Current, Listed, Countable;
      var tables := BuildTables(disk.roots);
      if disk.roots == Members(disk.head) && tables.Some? {
        CurrentHasRows(tables.value, library.content, disk.roots);
        res := Write(disk.(index := Some(IndexFile(disk.head, tables.value))));
      } else {
        res := Ok(Done);
      }
    }

    /**
     Recovers creations, then deletions, then a stale index; afterwards every operation has had
     its whole effect. Beside the removal of finished journals it takes at most nine writes, so it
     ends unless its process is stopped. It refuses exactly when a finished creation has lost its
     root, and then so will every later recovery.
     */
    method AcquireLock(faults: Faults) returns (res: Result<Unit, Failure>)
      requires Consistent(disk)
      requires Valid()
      modifies this
      ensures Valid()
      ensures Consistent(disk) && Meaning(disk) == old(Meaning(disk))
      ensures res.Ok? ==> Rested(disk) && !old(Blocked(disk))
      ensures res.Ok? && (!faults.journal || old(disk.deletes) == map[]) ==> disk.deletes == map[]
      ensures res.Ok? && !faults.cleanup ==> Leftovers(disk) == 0
      ensures old(disk.creates) != map[] || old(disk.deletes) != map[] || Leftovers(old(disk)) > 0 ==>
        res.Ok? && !faults.rebuild && Countable(library, disk.roots) ==> IndexIsCurrent(disk.index, disk.head)
      ensures res.Ok? && old(IndexStands(disk)) ==>
        disk.index == old(disk.index) && disk.head == old(disk.head) && IndexIsCurrent(disk.index, disk.head)
      ensures !faults.cleanup && !old(Blocked(disk)) ==> !Blocked(disk)
      ensures old(Blocked(disk)) ==> Blocked(disk)
      ensures res.Err? ==> (res.error == Refused && old(Blocked(disk))) || (res.error == Stopped && budget == 0)
      ensures budget <= old(budget) <= budget + 9 + Leftovers(old(disk))
    {
      hide Meaning, Indexed, Listed, IndexIsCurrent, Blocked, Countable;
      ghost var before := disk;
      var recovered := AnyJournal(disk);
      var cleaned := *;
      var _ :- RecoverCreations(faults);
      res := RecoverDeletions(faults);
      if res.Ok? && (recovered || cleaned) && !IndexIsCurrent(disk.index, disk.head) {
        RestedMeans(disk);
        var skipRebuild := *;
        if !(faults.rebuild && skipRebuild) {
          res := RebuildRestedIndex();
        }
      }
      if disk.finishedCreates == {} {
        NothingBlocks(disk);
      }
    }

    /** Finished deletions, and the one that is not. */
    method RecoverDeletions(faults: Faults) returns (res: Result<Unit, Failure>)
      requires Consistent(disk) && disk.creates == map[]
      requires Valid()
      modifies this
      ensures Valid()
      ensures disk.finishedCreates == old(disk.finishedCreates)
      ensures Consistent(disk) && Meaning(disk) == old(Meaning(disk))
      ensures res.Ok? ==> Rested(disk) && disk.finishedCreates == old(disk.finishedCreates)
      ensures res.Ok? && (!faults.journal || old(disk.deletes) == map[]) ==> disk.deletes == map[]
      ensures res.Ok? && !faults.cleanup ==> disk.finishedDeletes == {}
      ensures old(disk.deletes) == map[] ==> disk.index == old(disk.index) && disk.head == old(disk.head)
      ensures res.Err? ==> res.error == Stopped && budget == 0
      ensures budget <= old(budget) <= budget + (if old(disk.deletes) == map[] then 0 else 8)
        + |old(disk.finishedDeletes)|
    {
      hide Meaning, Indexed, Listed;
      var _ :- ClearFinishedDeletions(faults);
      ConsistentCases(disk);
      if tx :| tx in disk.deletes {
        res := RecoverDeletion(tx, faults);
      } else {
        QuietRests(disk);
        res := Ok(Done);
      }
    }

    method RebuildRestedIndex() returns (res: Result<Unit, Failure>)
      requires Rested(disk)
      requires Valid()
      modifies this
      ensures Valid()
      ensures disk.finishedCreates == old(disk.finishedCreates)
      ensures Rested(disk) && Meaning(disk) == old(Meaning(disk))
      ensures disk == old(disk).(index := disk.index)
      ensures res.Ok? && Countable(library, disk.roots) ==> IndexIsCurrent(disk.index, disk.head)
      ensures res.Err? ==> res.error == Stopped && budget == 0
      ensures budget <= old(budget) <= budget + 1
    {
      hide Rested, Meaning, Indexed, Listed, Countable;
      ghost var before := disk;
      RestedMeans(disk);
      RootsAreMembers(disk);
      res := RebuildIndex();
      if disk != before {
        IndexReplaced(before, disk.index.value.tables);
      }
    }

    // -------------------------------------------------------------- the two operations

    /**
     Publishes a checkpoint whose objects and chunks are already durable. `id` is new: content
     addresses include the creation time. A failed index update or a failed end of the journal
     only produces warnings, whence the skips. Beside a deletion that recovery could not finish the
     code goes on; UnfinishedDeletions follows it from there.
     */
    method CreateCheckpoint(id: SnapshotId, tx: OperationId, faults: Faults) returns (res: Result<Unit, Failure>)
      requires Consistent(disk) && id !in Ever(Meaning(disk).head)
      requires Valid()
      modifies this
      ensures Valid()
      ensures Consistent(disk)
      ensures res.Ok? ==> Meaning(disk) == WithCheckpoint(old(Meaning(disk)), id, tx)
      ensures res.Err? ==>
        Meaning(disk) == old(Meaning(disk)) || Meaning(disk) == WithCheckpoint(old(Meaning(disk)), id, tx)
      ensures res.Err? ==> res.error == Stopped || res.error == Refused || res.error == Overtaken
      ensures res.Err? && res.error.Stopped? ==> budget == 0
      ensures res.Err? && res.error.Refused? ==> old(Blocked(disk))
      ensures !faults.cleanup && !old(Blocked(disk)) ==> !Blocked(disk)
      ensures old(Blocked(disk)) ==> res.Err? && !res.error.Overtaken? && Halted(old(disk), disk)
      ensures res.Err? && res.error.Overtaken? ==>
        LeftBehind(disk) && Meaning(disk) == old(Meaning(disk)) && faults.journal && old(disk.deletes) != map[]
      ensures res.Ok? ==> budget + EndingWrites(faults) + 7 <= old(budget)
      ensures budget <= old(budget) <= budget + 20 + Leftovers(old(disk))
      ensures res.Ok? ==> Finishes(disk, faults)
      ensures res.Ok? ==> IndexFollows(library, old(disk), old(Meaning(disk)).head, disk, id, faults)
    {
      hide Indexed, Listed, Blocked, IndexFollows, ToldIndex, Countable;
      ghost var before := disk;
      var _ :- AcquireLock(faults);
      RestedMeans(disk);
      if disk.deletes != map[] {
        return Err(Overtaken);
      }
      QuietMeans(disk);
      ghost var head := disk.head;
      var indexOpen := IndexIsCurrent(disk.index, disk.head);
      res := Publish(id, tx, indexOpen, faults);
      if res.Ok? {
        ToldIndexFollows(library, before, head, disk, id, tx, indexOpen, faults);
      }
    }

    /** The journal and the root, then everything that follows from it. */
    method Publish(id: SnapshotId, tx: OperationId, indexOpen: bool, faults: Faults)
      returns (res: Result<Unit, Failure>)
      requires Quiet(disk) && id !in Ever(disk.head) && indexOpen == IndexIsCurrent(disk.index, disk.head)
      requires Valid()
      modifies this
      ensures Valid()
      ensures old(disk.finishedCreates) == {} ==> !Blocked(disk)
      ensures Consistent(disk)
      ensures res.Ok? ==> Meaning(disk) == WithCheckpoint(old(Meaning(disk)), id, tx)
      ensures Meaning(disk) == old(Meaning(disk)) || Meaning(disk) == WithCheckpoint(old(Meaning(disk)), id, tx)
      ensures res.Ok? ==> disk.head == Added(old(disk.head), id, tx)
      ensures res.Ok? ==> ToldIndex(library, disk.index, disk.head, id, indexOpen, faults)
      ensures res.Ok? && !faults.journal ==> Quiet(disk) && disk.finishedDeletes == old(disk.finishedDeletes)
      ensures res.Ok? && !faults.journal && !faults.cleanup ==> disk.finishedCreates <= old(disk.finishedCreates)
      ensures res.Err? ==> res.error == Stopped && budget == 0
      ensures res.Ok? ==> budget + EndingWrites(faults) + 7 <= old(budget)
      ensures budget <= old(budget) <= budget + 11
    {
      hide Indexed, Listed, ToldIndex;
      QuietMeans(disk);
      MembersWere(disk.head);
      // A missing reference beside published checkpoints would stop the creation here.
      assert disk.latest.None? ==> Members(disk.head) == {};
      var j := CreateJournal(Prepared, id, disk.latest, disk.head);
      CreateBegins(disk, tx, j);
      var _ :- Write(disk.(creates := map[tx := j]));
      CreatingMeans(disk, tx, j);
      RootPublishes(disk, tx, j);
      var _ :- Write(disk.(roots := disk.roots + {id}));
      CreatingMeans(disk, tx, j);
      res := AfterPublication(tx, j, indexOpen, faults);
    }

    /** Everything after the root is published. */
    method AfterPublication(tx: OperationId, start: CreateJournal, indexOpen: bool, faults: Faults)
      returns (res: Result<Unit, Failure>)
      requires Creating(disk, tx, start) && start.state == Prepared && start.id in disk.roots
      requires indexOpen ==>
        IndexIsCurrent(disk.index, start.headBefore) && disk.index.value.Rows() == Members(start.headBefore)
      requires Valid()
      modifies this
      ensures Valid()
      ensures disk.roots == old(disk.roots)
      ensures disk.finishedCreates <= old(disk.finishedCreates) + {Finished(tx, start.id)}
      ensures Consistent(disk) && Meaning(disk) == old(Meaning(disk))
      ensures res.Ok? ==> disk.head == HeadAfterCreate(tx, start)
      ensures res.Ok? ==> ToldIndex(library, disk.index, disk.head, start.id, indexOpen, faults)
      ensures res.Ok? && !faults.journal ==> Quiet(disk) && disk.finishedDeletes == old(disk.finishedDeletes)
      ensures res.Ok? && !faults.journal && !faults.cleanup ==> disk.finishedCreates <= old(disk.finishedCreates)
      ensures res.Err? ==> res.error == Stopped && budget == 0
      ensures res.Ok? ==> budget + EndingWrites(faults) + 5 <= old(budget)
      ensures budget <= old(budget) <= budget + 9
    {
      hide Creating, CreateMeaning, Consistent, Meaning, IndexIsCurrent, Indexed, Listed, ToldIndex, Quiet;
      var j := start;
      CreatingMeans(disk, tx, j);
      CreateAdvances(disk, tx, j, RootPublished);
      j :- Transition(tx, j, RootPublished);
      CreatingMeans(disk, tx, j);
      j :- UpdateInventory(tx, j);
      CreatingMeans(disk, tx, j);
      LatestSet(disk, tx, j);
      var _ :- Write(disk.(latest := Some(j.id)));
      CreatingMeans(disk, tx, j);
      InventoriedRoot(disk, tx, j);
      CreateAdvances(disk, tx, j, LatestUpdated);
      j :- Transition(tx, j, LatestUpdated);
      CreatingMeans(disk, tx, j);
      res := IndexAndCommit(tx, j, indexOpen, faults);
    }

    method IndexAndCommit(tx: OperationId, start: CreateJournal, indexOpen: bool, faults: Faults)
      returns (res: Result<Unit, Failure>)
      requires Creating(disk, tx, start) && start.state == LatestUpdated
      requires indexOpen ==>
        IndexIsCurrent(disk.index, start.headBefore) && disk.index.value.Rows() == Members(start.headBefore)
      requires Valid()
      modifies this
      ensures Valid()
      ensures disk.roots == old(disk.roots)
      ensures disk.finishedCreates <= old(disk.finishedCreates) + {Finished(tx, start.id)}
      ensures Consistent(disk) && Meaning(disk) == old(Meaning(disk))
      ensures res.Ok? ==> disk.head == HeadAfterCreate(tx, start)
      ensures res.Ok? ==> ToldIndex(library, disk.index, disk.head, start.id, indexOpen, faults)
      ensures res.Ok? && !faults.journal ==> Quiet(disk) && disk.finishedDeletes == old(disk.finishedDeletes)
      ensures res.Ok? && !faults.journal && !faults.cleanup ==> disk.finishedCreates <= old(disk.finishedCreates)
      ensures res.Err? ==> res.error == Stopped && budget == 0
      ensures res.Ok? ==> budget + EndingWrites(faults) <= old(budget)
      ensures budget <= old(budget) <= budget + 4
    {
      hide Creating, CreateMeaning, Consistent, Meaning, IndexIsCurrent, Quiet, Indexed, Listed, ToldIndex;
      CreatingMeans(disk, tx, start);
      InventoriedRoot(disk, tx, start);
      var skipIndex, skipJournal := *, *;
      if !(faults.index && skipIndex) {
        res := IndexNewCheckpoint(tx, start, indexOpen, faults);
        CreatingMeans(disk, tx, start);
        if res.Err? {
          return;
        }
      } else {
        ToldNothing(library, disk.index, disk.head, start.id, indexOpen, faults);
      }
      if faults.journal && skipJournal {
        return Ok(Done);
      }
      res := CommitCreation(tx, start, faults);
    }

    /** Enters the new checkpoint into an index that was current, or builds the first index. */
    method IndexNewCheckpoint(tx: OperationId, j: CreateJournal, indexOpen: bool, faults: Faults)
      returns (res: Result<Unit, Failure>)
      requires Creating(disk, tx, j) && j.state == LatestUpdated
      requires indexOpen ==>
        IndexIsCurrent(disk.index, j.headBefore) && disk.index.value.Rows() == Members(j.headBefore)
      requires Valid()
      modifies this
      ensures Valid()
      ensures Creating(disk, tx, j) && CreateMeaning(disk, tx, j) == old(CreateMeaning(disk, tx, j))
      ensures disk == old(disk).(index := disk.index)
      ensures res.Ok? ==> ToldIndex(library, disk.index, disk.head, j.id, indexOpen, faults)
      ensures res.Err? ==> res.error == Stopped && budget == 0
      ensures !indexOpen && Members(disk.head) != {j.id} ==> disk == old(disk)
      ensures budget <= old(budget) <= budget + 2
    {
      hide Indexed, Listed, Countable, SI.Accepts, SI.Step, SI.Indexable;
      var skipRebuild := *;
      if indexOpen {
        res := EnterRow(tx, j, faults);
      } else if |Members(disk.head)| == 1 && !(faults.rebuild && skipRebuild) {
        OnlyMember(disk.head, j.id);
        res := RebuildIndex();
      } else {
        OnlyMember(disk.head, j.id);
        res := Ok(Done);
      }
    }

    method EnterRow(tx: OperationId, j: CreateJournal, faults: Faults) returns (res: Result<Unit, Failure>)
      requires Creating(disk, tx, j) && j.state == LatestUpdated
      requires IndexIsCurrent(disk.index, j.headBefore) && disk.index.value.Rows() == Members(j.headBefore)
      requires Valid()
      modifies this
      ensures Valid()
      ensures Creating(disk, tx, j) && CreateMeaning(disk, tx, j) == old(CreateMeaning(disk, tx, j))
      ensures disk == old(disk).(index := disk.index)
      ensures res.Ok? ==> ToldIndex(library, disk.index, disk.head, j.id, true, faults)
      ensures res.Err? ==> res.error == Stopped && budget == 0
      ensures res.Ok? && !faults.index && IndexIsCurrent(disk.index, disk.head) ==> budget + 2 <= old(budget)
      ensures budget <= old(budget) <= budget + 2
    {
      hide Creating, CreateMeaning, SI.Current, SI.Accepts, SI.Step, SI.Indexable, Listed, Countable;
      var index := disk.index.value;
      RowToEnter(disk, tx, j);
      RowChangesAreTransactions(index.tables, library.content, index.Rows(), j.id);
      var connection := new SI.IndexConnection.Open(index.tables);
      var inserted := connection.IndexSnapshot(j.id, library.content(j.id));
      if inserted.Ok? {
        var tables := connection.Contents();
        CurrentHasRows(tables, library.content, index.Rows() + {j.id});
        CreatedRowsIndexed(disk, tx, j, tables);
        var _ :- Write(disk.(index := Some(IndexFile(index.head, tables))));
        var skipHead := *;
        if !(faults.index && skipHead) {
          var _ :- Write(disk.(index := Some(IndexFile(disk.head, tables))));
        }
      }
      return Ok(Done);
    }

    /** Deletes a checkpoint; `parent` is the parent its root names. */
    method DeleteCheckpoint(id: SnapshotId, parent: Option<SnapshotId>, tx: OperationId, faults: Faults)
      returns (res: Result<Unit, Failure>)
      requires Consistent(disk)
      requires Valid()
      modifies this
      ensures Valid()
      ensures Consistent(disk)
      ensures res.Ok? ==> Meaning(disk) == WithoutCheckpoint(old(Meaning(disk)), id, parent, tx)
      ensures res.Ok? ==> id in Members(old(Meaning(disk)).head)
      ensures res.Err? && res.error.SnapshotNotFound? ==>
        id !in Members(old(Meaning(disk)).head) && Rested(disk) && Meaning(disk) == old(Meaning(disk))
      ensures res.Err? && res.error.Overtaken? ==>
        LeftBehind(disk) && Meaning(disk) == old(Meaning(disk)) && faults.journal && old(disk.deletes) != map[]
      ensures res.Err? && res.error.Refused? ==> old(Blocked(disk))
      ensures !faults.cleanup && !old(Blocked(disk)) ==> !Blocked(disk)
      ensures old(Blocked(disk)) ==> res.Err? && (res.error.Stopped? || res.error.Refused?) && Halted(old(disk), disk)
      ensures res.Err? && res.error.Stopped? ==> budget == 0
      ensures res.Err? && res.error.Stopped? ==>
        || Meaning(disk) == old(Meaning(disk))
        || (id in Members(old(Meaning(disk)).head)
            && Meaning(disk) == WithoutCheckpoint(old(Meaning(disk)), id, parent, tx))
      ensures res.Ok? ==> budget + EndingWrites(faults) + 8 <= old(budget)
      ensures budget <= old(budget) <= budget + 21 + Leftovers(old(disk))
      ensures res.Ok? || res.error.SnapshotNotFound? ==> Finishes(disk, faults)
      ensures (res.Ok? || res.error.SnapshotNotFound?) && !faults.index && old(IndexStands(disk)) ==>
        IndexIsCurrent(disk.index, disk.head)
    {
      hide Indexed, Listed, Blocked, Countable;
      var _ :- AcquireLock(faults);
      RestedMeans(disk);
      if id !in disk.roots {
        return Err(SnapshotNotFound);
      }
      if disk.deletes != map[] {
        return Err(Overtaken);
      }
      res := BeginDeletion(id, parent, tx, faults);
      if disk.finishedCreates == {} {
        NothingBlocks(disk);
      }
    }

    /** The journal with the new latest, then everything that follows from it. */
    method BeginDeletion(id: SnapshotId, parent: Option<SnapshotId>, tx: OperationId, faults: Faults)
      returns (res: Result<Unit, Failure>)
      requires Quiet(disk) && id in disk.roots
      requires Valid()
      modifies this
      ensures Valid()
      ensures disk.finishedCreates == old(disk.finishedCreates)
      ensures Consistent(disk)
      ensures res.Ok? ==> Meaning(disk) == WithoutCheckpoint(old(Meaning(disk)), id, parent, tx)
      ensures Meaning(disk) == old(Meaning(disk))
        || Meaning(disk) == WithoutCheckpoint(old(Meaning(disk)), id, parent, tx)
      ensures res.Ok? ==> Rested(disk) && Tidied(old(disk), disk, faults)
      ensures res.Ok? && !faults.index && old(IndexIsCurrent(disk.index, disk.head)) ==>
        IndexIsCurrent(disk.index, disk.head)
      ensures res.Err? ==> res.error == Stopped && budget == 0
      ensures res.Ok? ==> budget + EndingWrites(faults) + 8 <= old(budget)
      ensures budget <= old(budget) <= budget + 12
    {
      hide Indexed, Listed, Deleting, Rested, Quiet, Consistent, Meaning, DeleteMeaning, WithoutCheckpoint;
      DeletionIsSound(disk, id, parent, tx);
      var updateIndex := IndexIsCurrent(disk.index, disk.head);
      var newLatest := LatestAfterRemoval(disk.head, id, disk.latest, parent);
      var j := DeleteJournal(Intended, id, disk.latest, newLatest.value, updateIndex, disk.head, Missing);
      var _ :- Write(disk.(deletes := map[tx := j]));
      DeletingMeans(disk, tx, j);
      res := StageAndFinish(tx, j, faults);
    }

    /** The copy, the commit point, the unlink of the original and the rest. */
    method StageAndFinish(tx: OperationId, start: DeleteJournal, faults: Faults) returns (res: Result<Unit, Failure>)
      requires Deleting(disk, tx, start) && start.state == Intended
      requires Valid()
      modifies this
      ensures Valid()
      ensures disk.finishedCreates == old(disk.finishedCreates)
      ensures Consistent(disk)
      ensures res.Ok? ==> Meaning(disk) == DeleteMeaning(tx, start.(state := Staged))
      ensures res.Ok? ==> Rested(disk) && Tidied(old(disk), disk, faults)
      ensures res.Ok? && !faults.index && start.updateIndex && HasRow(old(disk.index), start.id) ==>
        IndexIsCurrent(disk.index, disk.head)
      ensures res.Err? ==> res.error == Stopped && budget == 0
      ensures Meaning(disk) == old(Meaning(disk)) || Meaning(disk) == DeleteMeaning(tx, start.(state := Staged))
      ensures res.Ok? ==> budget + EndingWrites(faults) + 7 <= old(budget)
      ensures budget <= old(budget) <= budget + 11
    {
      hide Deleting, Consistent, Meaning, Indexed, Listed, Rested;
      DeletingMeans(disk, tx, start);
      var j :- StageCopy(tx, start);
      DeleteCommits(disk, tx, j);
      j := j.(state := Staged);
      var _ :- Write(disk.(deletes := map[tx := j]));
      DeletingMeans(disk, tx, j);
      OriginalUnlinked(disk, tx, j);
      var _ :- Write(disk.(roots := disk.roots - {j.id}));
      DeletingMeans(disk, tx, j);
      res := FinishDeletion(tx, j, faults);
    }

    /** Writes the copy of the root and makes it durable; in between it is not to be trusted. */
    method StageCopy(tx: OperationId, start: DeleteJournal) returns (res: Result<DeleteJournal, Failure>)
      requires Deleting(disk, tx, start) && start.state == Intended
      requires Valid()
      modifies this
      ensures Valid()
      ensures disk.finishedCreates == old(disk.finishedCreates)
      ensures Consistent(disk) && Meaning(disk) == old(Meaning(disk))
      ensures res.Ok? ==> res.value == start.(staged := Exact) && Deleting(disk, tx, res.value)
      ensures disk == old(disk).(deletes := disk.deletes)
      ensures res.Err? ==> res.error == Stopped && budget == 0
      ensures res.Ok? ==> budget + 2 <= old(budget)
      ensures budget <= old(budget) <= budget + 2
    {
      hide Deleting, Consistent, Meaning, Indexed, Listed;
      var j := start;
      DeletingMeans(disk, tx, j);
      CopyChanges(disk, tx, j, Partial);
      j := j.(staged := Partial);
      var _ :- Write(disk.(deletes := map[tx := j]));
      DeletingMeans(disk, tx, j);
      CopyChanges(disk, tx, j, Exact);
      j := j.(staged := Exact);
      var _ :- Write(disk.(deletes := map[tx := j]));
      DeletingMeans(disk, tx, j);
      return Ok(j);
    }
  }

  // ---------------------------------------------------------------- whole runs

  datatype Request =
    | Create(id: SnapshotId, tx: OperationId)
    | Delete(id: SnapshotId, parent: Option<SnapshotId>, tx: OperationId)
    | Recover

  /** A request, the number of durable writes before its process stops, if it gets that far, and what may fail. */
  datatype Run = Run(request: Request, writes: nat, faults: Faults)

  /** Enough writes for one operation without leftover journals. */
  const ENOUGH_WRITES: nat := 21

  /** What a request does to the checkpoints when it succeeds. */
  ghost function EffectOf(before: Logical, request: Request): Logical {
    match request
    case Create(id, tx) => WithCheckpoint(before, id, tx)
    case Delete(id, parent, tx) => WithoutCheckpoint(before, id, parent, tx)
    case Recover => before
  }

  /** One run leaves the checkpoints alone or has its one effect. */
  ghost predicate Follows(before: Logical, request: Request, after: Logical) {
    after == before || (after == EffectOf(before, request) && (request.Delete? ==> request.id in Members(before.head)))
  }

  /** What one run may answer, with the checkpoints before and after it. */
  ghost predicate Answers(before: Logical, request: Request, res: Result<Unit, Failure>, after: Logical) {
    && Follows(before, request, after)
    && (res.Ok? ==> after == EffectOf(before, request) && (request.Delete? ==> request.id in Members(before.head)))
    && (res.Err? && !res.error.Stopped? ==> after == before)
    && (res == Err(SnapshotNotFound) ==> request.Delete? && request.id !in Members(before.head))
  }

  function CreatedIds(runs: seq<Run>): set<SnapshotId> {
    set r | r in runs && r.request.Create? :: r.request.id
  }

  /** New checkpoints have new ids. */
  ghost predicate FreshIds(runs: seq<Run>) {
    forall i, j | 0 <= i < j < |runs| && runs[i].request.Create? && runs[j].request.Create? ::
      runs[i].request.id != runs[j].request.id
  }

  /** Nothing may fail. */
  ghost predicate Faultless(faults: Faults) {
    !faults.index && !faults.rebuild && !faults.journal && !faults.cleanup
  }

  /** Nothing is going on, and the index is up to date unless there is nothing to list. */
  ghost predicate IndexReady(d: Disk) {
    Quiet(d) && (Members(d.head) == {} || IndexStands(d))
  }

  lemma CreationKeepsIndexReady(library: Library, before: Disk, after: Disk, id: SnapshotId, tx: OperationId,
                                faults: Faults)
    requires Listed(library) && IndexReady(before) && Finishes(after, faults) && Faultless(faults)
    requires Meaning(after) == WithCheckpoint(Meaning(before), id, tx)
    requires IndexFollows(library, before, Meaning(before).head, after, id, faults)
    ensures Countable(library, Members(after.head)) ==> IndexReady(after)
  {
    hide Countable, SI.Indexable, Listed, Quiet, Meaning;
    QuietMeans(before);
    QuietMeans(after);
    if Countable(library, Members(after.head)) {
      CountableIsIndexable(library, Members(after.head));
      assert Members(before.head) == {} ==> Members(after.head) == {id};
    }
  }

  /** Any other request: a current index stays current, and nothing stays nothing. */
  lemma IndexStaysReady(before: Disk, after: Disk, faults: Faults)
    requires IndexReady(before) && Finishes(after, faults) && Faultless(faults)
    requires IndexStands(before) ==> IndexIsCurrent(after.index, after.head)
    requires Members(Meaning(before).head) == {} ==> Meaning(after) == Meaning(before)
    ensures IndexReady(after)
  {
    hide Quiet, Meaning;
    QuietMeans(before);
    QuietMeans(after);
  }

  /** The run got as far as an answer of its own. */
  ghost predicate Answered(res: Result<Unit, Failure>) {
    res.Ok? || res.error.SnapshotNotFound?
  }

  /** Serves one request. */
  method OneRun(repository: Repository, run: Run) returns (res: Result<Unit, Failure>)
    requires Consistent(repository.disk) && repository.Valid()
    requires run.request.Create? ==> run.request.id !in Ever(Meaning(repository.disk).head)
    modifies repository
    ensures Consistent(repository.disk) && repository.Valid()
    ensures Answers(old(Meaning(repository.disk)), run.request, res, Meaning(repository.disk))
    ensures res == Err(Overtaken) ==> LeftBehind(repository.disk) && !old(Blocked(repository.disk))
    ensures res == Err(Refused) ==> old(Blocked(repository.disk))
    ensures old(Blocked(repository.disk)) ==> InVain(res) && Halted(old(repository.disk), repository.disk)
    ensures !run.faults.cleanup && !old(Blocked(repository.disk)) ==> !Blocked(repository.disk)
    ensures res == Err(Overtaken) ==> run.faults.journal
    ensures res == Err(Stopped) ==> run.writes <= ENOUGH_WRITES + old(Generation(Meaning(repository.disk).head))
    ensures Answered(res) ==> Finishes(repository.disk, run.faults)
    ensures Answered(res) && Faultless(run.faults) && old(IndexReady(repository.disk)) ==>
      Countable(repository.library, Members(repository.disk.head)) ==> IndexReady(repository.disk)
  {
    hide Consistent, Meaning, WithCheckpoint, WithoutCheckpoint, LeftBehind, Indexed, Listed, Rested, Blocked, Quiet,
         Countable, IndexReady, IndexStands, IndexFollows;
    LeftoversAreFew(repository.disk);
    ghost var before := repository.disk;
    repository.budget := run.writes;
    match run.request {
      case Create(id, tx) =>
        res := repository.CreateCheckpoint(id, tx, run.faults);
        if res.Ok? && Faultless(run.faults) && IndexReady(before) {
          CreationKeepsIndexReady(repository.library, before, repository.disk, id, tx, run.faults);
        }
      case Delete(id, parent, tx) =>
        res := repository.DeleteCheckpoint(id, parent, tx, run.faults);
        assert res.Ok? || res.error.Stopped? || res.error.SnapshotNotFound? || res.error.Refused?
          || res.error.Overtaken?;
        if Answered(res) && Faultless(run.faults) && IndexReady(before) {
          IndexStaysReady(before, repository.disk, run.faults);
        }
      case Recover =>
        res := repository.AcquireLock(run.faults);
        if res.Ok? {
          RestedMeans(repository.disk);
          if Faultless(run.faults) && IndexReady(before) {
            IndexStaysReady(before, repository.disk, run.faults);
          }
        }
    }
  }

  /** The run was refused, or its process stopped before it could be. */
  ghost predicate InVain(res: Result<Unit, Failure>) {
    res.Err? && (res.error.Refused? || res.error.Stopped?)
  }

  /** A run that nothing hinders: nothing may fail, and it has writes for what the `i` runs before it may have left. */
  ghost predicate Unhindered(run: Run, i: nat) {
    Faultless(run.faults) && run.writes > ENOUGH_WRITES + i
  }

  /** The first `n` runs were unhindered. */
  ghost predicate Smooth(runs: seq<Run>, n: nat)
    requires n <= |runs|
  {
    forall i | 0 <= i < n :: Unhindered(runs[i], i)
  }

  /** What a request answers when nothing hinders it. */
  ghost function ProperAnswer(before: Logical, request: Request): Result<Unit, Failure> {
    if request.Delete? && request.id !in Members(before.head) then Err(SnapshotNotFound) else Ok(Done)
  }

  /** The checkpoints after it. */
  ghost function Served(before: Logical, request: Request): Logical {
    if ProperAnswer(before, request).Ok? then EffectOf(before, request) else before
  }

  /** Some finished journal could not be removed. */
  predicate CleanupFailed(runs: seq<Run>, n: nat)
    requires n <= |runs|
  {
    exists i :: 0 <= i < n && runs[i].faults.cleanup
  }

  /** Every state of the log can be rebuilt into an index. */
  ghost predicate AllCountable(library: Library, log: seq<Logical>) {
    forall l | l in log :: Countable(library, Members(l.head))
  }

  /** A log of the first `i` runs. */
  ghost predicate LogOf(log: seq<Logical>, runs: seq<Run>, results: seq<Result<Unit, Failure>>) {
    && |results| <= |runs| && |log| == |results| + 1 && log[0] == Logical(Initial, None)
    && (forall k | 0 <= k < |results| :: Answers(log[k], runs[k].request, results[k], log[k + 1]))
    && (forall l | l in log :: Sound(l))
    && Ever(log[|results|].head) <= CreatedIds(runs[..|results|])
    && (forall k | 0 <= k < |results| && results[k] == Err(Refused) ::
          FinalFrom(log, results, k) && CleanupFailed(runs, k))
    && (forall k | 0 <= k < |results| :: results[k] != Err(Overtaken))
    && (forall k | 0 <= k < |results| && results[k] == Err(Stopped) :: runs[k].writes <= ENOUGH_WRITES + k)
    && (forall k | 0 <= k < |log| :: Generation(log[k].head) <= k)
  }

  /** From this run on nothing changes any more, and every answer is a refusal or a stop. */
  ghost predicate FinalFrom(log: seq<Logical>, results: seq<Result<Unit, Failure>>, k: nat)
    requires k < |results| && |log| == |results| + 1
  {
    (forall m | k <= m <= |results| :: log[m] == log[k]) && (forall m | k <= m < |results| :: InVain(results[m]))
  }

  /** Run `m` had the effect of deleting `id`. */
  ghost predicate Deleted(log: seq<Logical>, runs: seq<Run>, m: nat, id: SnapshotId)
    requires m < |runs| && m + 1 < |log|
  {
    && runs[m].request.Delete? && runs[m].request.id == id
    && id in Members(log[m].head) && log[m + 1] == EffectOf(log[m], runs[m].request)
  }

  /** All runs up to the first that begins beside a deletion that recovery could not finish. */
  method RunAll(library: Library, runs: seq<Run>)
    returns (disk: Disk, results: seq<Result<Unit, Failure>>, overtaken: bool, ghost log: seq<Logical>)
    requires FreshIds(runs) && Listed(library)
    ensures Consistent(disk) && Indexed(library.content, disk.index)
    ensures |results| <= |runs| && (!overtaken ==> |results| == |runs|)
    ensures |log| == |results| + 1 && Meaning(disk) == log[|results|]
    ensures LogOf(log, runs, results) && (Err(Refused) in results ==> Blocked(disk))
    ensures !overtaken ==> Progress(library, runs, log, |results|, disk)
    ensures overtaken ==> |results| < |runs| && LeftBehind(disk) && runs[|results|].faults.journal
  {
    hide Consistent, Meaning, Answers, Sound, CreatedIds, Members, Ever, FreshIds, Quiet, LogOf, LeftBehind, Rested,
         Listed, Indexed, Blocked, FinalFrom, EffectOf, IndexReady, Countable, ParentsFound, LatestIsNewest, Settled,
         Smooth, CleanupFailed, AllCountable, Served, ProperAnswer, Finishes, Leftovers;
    var repository := new Repository(library, 0);
    QuietMeans(repository.disk);
    ConsistentMeansSound(repository.disk);
    log, results := [Meaning(repository.disk)], [];
    LogBegins(log, runs);
    ProgressBegins(library, runs, log, repository.disk);
    overtaken := false;
    while |results| < |runs| && !overtaken
      invariant repository.library == library && Consistent(repository.disk) && repository.Valid()
      invariant |results| <= |runs| && |log| == |results| + 1 && Meaning(repository.disk) == log[|results|]
      invariant LogOf(log, runs, results) && (Err(Refused) in results ==> Blocked(repository.disk))
      invariant !overtaken ==> Progress(library, runs, log, |results|, repository.disk)
      invariant overtaken ==> |results| < |runs| && LeftBehind(repository.disk) && runs[|results|].faults.journal
      decreases |runs| - |results|, !overtaken
    {
      LogIsFresh(log, runs, results);
      ghost var before := repository.disk;
      var res := OneRun(repository, runs[|results|]);
      if res == Err(Overtaken) {
        overtaken := true;
        AnswerIsEmpty(log[|results|], runs[|results|].request, res, Meaning(repository.disk));
      } else {
        ConsistentMeansSound(repository.disk);
        ProgressTells(library, runs, log, |results|, before);
        LogExtends(log, runs, results, res, Meaning(repository.disk));
        ProgressGoesOn(library, runs, log, results, res, before, repository.disk);
        log, results := log + [Meaning(repository.disk)], results + [res];
      }
    }
    disk := repository.disk;
  }

  /**
   Any sequence of operations, each stopped after any number of writes, including inside the
   recovery it starts with: every operation happens as a whole or not at all. Finished journals may
   lie about all the time. A run is refused only if a checkpoint was deleted beside the finished
   journal of its creation, and from then on nothing changes any more. All runs are covered up to
   the first that begins beside a deletion that recovery could not finish.
   */
  method RunHistory(library: Library, runs: seq<Run>)
    returns (disk: Disk, results: seq<Result<Unit, Failure>>, ghost log: seq<Logical>)
    requires FreshIds(runs) && Listed(library)
    ensures Consistent(disk) && |disk.creates| + |disk.deletes| <= 1
    ensures |results| <= |runs| && (|results| < |runs| ==> LeftBehind(disk) && runs[|results|].faults.journal)
    ensures |log| == |results| + 1 && log[0] == Logical(Initial, None) && Meaning(disk) == log[|results|]
    ensures forall i | 0 <= i < |results| :: Answers(log[i], runs[i].request, results[i], log[i + 1])
    ensures forall i | 0 <= i < |results| && results[i] == Err(Stopped) :: runs[i].writes <= ENOUGH_WRITES + i
    ensures forall i | 0 <= i < |results| && results[i] == Err(Refused) ::
      && FinalFrom(log, results, i) && CleanupFailed(runs, i)
      && exists m, id :: 0 <= m < i && Deleted(log, runs, m, id)
    ensures Smooth(runs, |runs|) ==>
      && |results| == |runs| && Quiet(disk) && Leftovers(disk) == 0
      && (forall i | 0 <= i < |runs| ::
            results[i] == ProperAnswer(log[i], runs[i].request) && log[i + 1] == Served(log[i], runs[i].request))
      && (AllCountable(library, log) ==> IndexReady(disk))
    ensures ParentsFound(library, runs[..|results|], log) ==> forall l | l in log :: LatestIsNewest(l.head, l.latest)
    ensures forall l | l in log :: Sound(l)
    ensures Rested(disk) ==> disk.roots == Members(disk.head) && Logical(disk.head, disk.latest) == log[|results|]
    ensures IndexIsCurrent(disk.index, disk.head) ==>
      SI.Describes(disk.index.value.tables.snapshots, disk.index.value.tables.refs,
                   LiveOf(library.content, Members(disk.head)))
  {
    hide Consistent, Meaning, Answers, Sound, Members, Quiet, LogOf, LeftBehind, Rested, Listed, Indexed, Blocked,
         FinalFrom, EffectOf, IndexReady, ParentsFound, LatestIsNewest, Settled, Smooth, CleanupFailed, AllCountable,
         Served, ProperAnswer, Leftovers, Deleted, Progress, LiveOf, SI.Describes;
    var overtaken: bool;
    disk, results, overtaken, log := RunAll(library, runs);
    ConsistentMeansSound(disk);
    LogTells(log, runs, results);
    if Err(Refused) in results {
      BlockedWasDeleted(disk);
      RefusalsFollowDeletions(log, runs, results);
    }
    if Smooth(runs, |runs|) {
      SmoothMeans(library, runs, log, results, disk, overtaken);
    }
    if ParentsFound(library, runs[..|results|], log) {
      NewestThroughout(library, runs, log, results);
    }
    if Rested(disk) {
      RestedMeans(disk);
      RootsAreMembers(disk);
    }
    if IndexIsCurrent(disk.index, disk.head) {
      CurrentIndexIsRight(disk, library.content);
    }
  }

  /** What is known of the disk after the first `n` runs, as far as nothing failed. */
  ghost predicate Progress(library: Library, runs: seq<Run>, log: seq<Logical>, n: nat, d: Disk)
    requires n <= |runs|
  {
    && (Blocked(d) ==> CleanupFailed(runs, n))
    && (Smooth(runs, n) ==> Quiet(d) && Leftovers(d) == 0)
    && (Smooth(runs, n) && AllCountable(library, log) ==> IndexReady(d))
  }

  lemma ProgressBegins(library: Library, runs: seq<Run>, log: seq<Logical>, d: Disk)
    requires d == NO_CHECKPOINTS
    ensures Progress(library, runs, log, 0, d)
  {
  }

  lemma ProgressTells(library: Library, runs: seq<Run>, log: seq<Logical>, n: nat, d: Disk)
    requires n <= |runs| && Progress(library, runs, log, n, d)
    ensures Blocked(d) ==> CleanupFailed(runs, n)
  {
  }

  lemma OneMoreRun(runs: seq<Run>, n: nat)
    requires n < |runs|
    ensures CleanupFailed(runs, n) ==> CleanupFailed(runs, n + 1)
    ensures runs[n].faults.cleanup ==> CleanupFailed(runs, n + 1)
    ensures Smooth(runs, n + 1) <==> Smooth(runs, n) && Unhindered(runs[n], n)
  {
  }

  lemma ProgressGoesOn(library: Library, runs: seq<Run>, log: seq<Logical>, results: seq<Result<Unit, Failure>>,
                       res: Result<Unit, Failure>, before: Disk, after: Disk)
    requires LogOf(log, runs, results) && |results| < |runs| && Progress(library, runs, log, |results|, before)
    requires LogOf(log + [Meaning(after)], runs, results + [res])
    requires var faults := runs[|results|].faults;
      && (!faults.cleanup && !Blocked(before) ==> !Blocked(after))
      && (Answered(res) ==> Finishes(after, faults))
      && (Answered(res) && Faultless(faults) && IndexReady(before) ==>
            Countable(library, Members(after.head)) ==> IndexReady(after))
    requires Blocked(before) ==> InVain(res) && Halted(before, after)
    ensures Progress(library, runs, log + [Meaning(after)], |results| + 1, after)
  {
    hide Blocked, CleanupFailed, Smooth, Quiet, Leftovers, IndexReady, Countable, Meaning, FinalFrom, Answers, Sound;
    var n, next := |results|, Meaning(after);
    OneMoreRun(runs, n);
    if Smooth(runs, n + 1) {
      SmoothIsAnswered(runs, log + [next], results + [res], n);
      if AllCountable(library, log + [next]) {
        QuietMeans(after);
        assert AllCountable(library, log) && next in log + [next];
        assert next.head == after.head;
      }
    }
  }

  /** An unhindered run after unhindered runs is neither stopped nor refused. */
  lemma SmoothIsAnswered(runs: seq<Run>, log: seq<Logical>, results: seq<Result<Unit, Failure>>, i: nat)
    requires LogOf(log, runs, results) && i < |results| && Smooth(runs, i + 1)
    ensures Answered(results[i]) && results[i] == ProperAnswer(log[i], runs[i].request)
    ensures log[i + 1] == Served(log[i], runs[i].request)
  {
    hide FinalFrom, Sound, EffectOf, Members;
    assert Unhindered(runs[i], i);
    assert results[i] != Err(Stopped) && results[i] != Err(Refused) && results[i] != Err(Overtaken);
    assert Answers(log[i], runs[i].request, results[i], log[i + 1]);
    assert results[i].Ok? ==> results[i].value.Done?;
  }

  lemma SmoothMeans(library: Library, runs: seq<Run>, log: seq<Logical>, results: seq<Result<Unit, Failure>>,
                    d: Disk, overtaken: bool)
    requires LogOf(log, runs, results) && Smooth(runs, |runs|)
    requires !overtaken ==> |results| == |runs| && Progress(library, runs, log, |results|, d)
    requires overtaken ==> |results| < |runs| && runs[|results|].faults.journal
    ensures |results| == |runs| && Quiet(d) && Leftovers(d) == 0
    ensures forall i | 0 <= i < |runs| ::
      results[i] == ProperAnswer(log[i], runs[i].request) && log[i + 1] == Served(log[i], runs[i].request)
    ensures AllCountable(library, log) ==> IndexReady(d)
  {
    hide FinalFrom, Sound, Quiet, Leftovers, IndexReady, Countable, LogOf, ProperAnswer, Served, AllCountable;
    LogTells(log, runs, results);
    if overtaken {
      assert false;
    }
    forall i | 0 <= i < |runs|
      ensures results[i] == ProperAnswer(log[i], runs[i].request) && log[i + 1] == Served(log[i], runs[i].request)
    {
      assert Smooth(runs, i + 1);
      SmoothIsAnswered(runs, log, results, i);
    }
  }

  /** A root names the latest checkpoint its creation found as its parent, and a deletion reads it there. */
  ghost predicate ParentsFound(library: Library, runs: seq<Run>, log: seq<Logical>)
    requires |log| == |runs| + 1
  {
    forall i | 0 <= i < |runs| ::
      match runs[i].request
      case Create(id, _) => library.content(id).parent == log[i].latest
      case Delete(id, parent, _) => library.content(id).parent == parent
      case Recover => true
  }

  /** On every state of the log the latest checkpoint is the one added last. */
  lemma NewestThroughout(library: Library, runs: seq<Run>, log: seq<Logical>, results: seq<Result<Unit, Failure>>)
    requires LogOf(log, runs, results) && ParentsFound(library, runs[..|results|], log)
    ensures forall l | l in log :: LatestIsNewest(l.head, l.latest)
  {
    hide FinalFrom, Sound, Answers, LatestIsNewest, LogOf, ParentsFound;
    LogTells(log, runs, results);
    forall i | 0 <= i < |log|
      ensures LatestIsNewest(log[i].head, log[i].latest)
    {
      NewestSoFar(library, runs, log, results, i);
    }
  }

  lemma {:induction false} NewestSoFar(library: Library, runs: seq<Run>, log: seq<Logical>,
                                       results: seq<Result<Unit, Failure>>, i: nat)
    requires LogOf(log, runs, results) && ParentsFound(library, runs[..|results|], log) && i < |log|
    ensures LatestIsNewest(log[i].head, log[i].latest)
    ensures ParentsRight(log[i].head, (id: SnapshotId) => library.content(id).parent)
  {
    hide FinalFrom, Sound, Answers, LatestIsNewest, ParentsRight;
    if i == 0 {
      NothingIsNewest((id: SnapshotId) => library.content(id).parent);
    } else {
      NewestSoFar(library, runs, log, results, i - 1);
      assert runs[..|results|][i - 1] == runs[i - 1];
      assert Answers(log[i - 1], runs[i - 1].request, results[i - 1], log[i]);
      NewestStays(log[i - 1], runs[i - 1].request, results[i - 1], log[i],
                  (id: SnapshotId) => library.content(id).parent);
    }
  }

  lemma NothingIsNewest(parentOf: SnapshotId -> Option<SnapshotId>)
    ensures LatestIsNewest(Initial, None) && ParentsRight(Initial, parentOf)
  {
  }

  lemma NewestStays(before: Logical, request: Request, res: Result<Unit, Failure>, after: Logical,
                    parentOf: SnapshotId -> Option<SnapshotId>)
    requires Answers(before, request, res, after)
    requires LatestIsNewest(before.head, before.latest) && ParentsRight(before.head, parentOf)
    requires match request
      case Create(id, _) => parentOf(id) == before.latest
      case Delete(id, parent, _) => parentOf(id) == parent
      case Recover => true
    ensures LatestIsNewest(after.head, after.latest) && ParentsRight(after.head, parentOf)
  {
    hide LatestIsNewest, LatestAfterRemoval, LastAddition;
    match request
    case Create(id, tx) =>
      AdditionKeepsNewest(before.head, id, tx);
    case Delete(id, parent, tx) =>
      if after != before {
        RemovalKeepsNewest(before.head, id, before.latest, tx, parentOf);
      }
    case Recover =>
  }

  lemma AnswerIsEmpty(before: Logical, request: Request, res: Result<Unit, Failure>, after: Logical)
    requires Answers(before, request, res, after) && res == Err(Overtaken)
    ensures after == before
  {
  }

  lemma RootsAreMembers(d: Disk)
    requires Settled(d.roots, d.head, d.latest)
    ensures d.roots == Members(d.head)
  {
  }

  lemma EverGrowsByCreation(before: Logical, request: Request, after: Logical)
    requires Follows(before, request, after)
    ensures Ever(before.head) <= Ever(after.head)
    ensures Ever(after.head) <= Ever(before.head) + (if request.Create? then {request.id} else {})
    ensures forall id | id in Members(before.head) && id !in Members(after.head) :: request.Delete? && request.id == id
    ensures forall id | id in Ever(after.head) - Ever(before.head) :: id in Members(after.head)
  {
  }

  lemma CreatedSoFar(runs: seq<Run>, i: nat)
    requires i < |runs|
    ensures CreatedIds(runs[..i + 1])
         == CreatedIds(runs[..i]) + (if runs[i].request.Create? then {runs[i].request.id} else {})
  {
    assert runs[..i + 1] == runs[..i] + [runs[i]];
    assert forall r :: r in runs[..i + 1] <==> r in runs[..i] || r == runs[i];
  }

  lemma LogBegins(log: seq<Logical>, runs: seq<Run>)
    requires log == [Logical(Initial, None)] && Sound(log[0])
    ensures LogOf(log, runs, [])
  {
    hide Sound, Answers;
  }

  lemma LogExtends(log: seq<Logical>, runs: seq<Run>, results: seq<Result<Unit, Failure>>, res: Result<Unit, Failure>,
                   next: Logical)
    requires LogOf(log, runs, results) && |results| < |runs| && Sound(next)
    requires Answers(log[|results|], runs[|results|].request, res, next)
    requires Err(Refused) in results ==> InVain(res) && next == log[|results|]
    requires res == Err(Refused) ==> CleanupFailed(runs, |results|)
    requires res == Err(Stopped) ==> runs[|results|].writes <= ENOUGH_WRITES + Generation(log[|results|].head)
    requires res != Err(Overtaken)
    ensures LogOf(log + [next], runs, results + [res])
  {
    hide Follows, Sound, Members, Ever, CreatedIds, EffectOf, InVain, CleanupFailed, Generation;
    OneOperationAtMost(log[|results|], runs[|results|].request, next);
    EverGrowsByCreation(log[|results|], runs[|results|].request, next);
    CreatedSoFar(runs, |results|);
    var longer, answers := log + [next], results + [res];
    forall k | 0 <= k < |answers| && answers[k] == Err(Refused)
      ensures FinalFrom(longer, answers, k) && CleanupFailed(runs, k)
    {
      if k < |results| {
        assert results[k] in results && FinalFrom(log, results, k);
      } else {
        NothingHappened(log[k], runs[k].request, next);
      }
    }
  }

  lemma OneOperationAtMost(before: Logical, request: Request, after: Logical)
    requires Follows(before, request, after)
    ensures Generation(after.head) <= Generation(before.head) + 1
  {
  }

  lemma NothingHappened(before: Logical, request: Request, after: Logical)
    requires Answers(before, request, Err(Refused), after)
    ensures after == before && InVain(Err(Refused))
  {
  }

  lemma LogIsFresh(log: seq<Logical>, runs: seq<Run>, results: seq<Result<Unit, Failure>>)
    requires LogOf(log, runs, results) && FreshIds(runs) && |results| < |runs|
    ensures runs[|results|].request.Create? ==> runs[|results|].request.id !in Ever(log[|results|].head)
  {
    hide Answers, Sound, CreatedIds, FinalFrom;
    if runs[|results|].request.Create? {
      FreshSoFar(runs, |results|);
    }
  }

  lemma LogTells(log: seq<Logical>, runs: seq<Run>, results: seq<Result<Unit, Failure>>)
    requires LogOf(log, runs, results)
    ensures |log| == |results| + 1 && log[0] == Logical(Initial, None)
    ensures forall k | 0 <= k < |results| :: Answers(log[k], runs[k].request, results[k], log[k + 1])
    ensures forall k | 0 <= k < |results| && results[k] == Err(Refused) ::
      FinalFrom(log, results, k) && CleanupFailed(runs, k)
    ensures forall k | 0 <= k < |results| && results[k] == Err(Stopped) :: runs[k].writes <= ENOUGH_WRITES + k
    ensures forall l | l in log :: Sound(l)
  {
    hide Answers, Sound, FinalFrom;
  }

  lemma FreshSoFar(runs: seq<Run>, i: nat)
    requires FreshIds(runs) && i < |runs| && runs[i].request.Create?
    ensures runs[i].request.id !in CreatedIds(runs[..i])
  {
  }

  /** Nothing changed since a refused run, so what is missing now was deleted before it. */
  lemma RefusalsFollowDeletions(log: seq<Logical>, runs: seq<Run>, results: seq<Result<Unit, Failure>>)
    requires LogOf(log, runs, results)
    requires exists id :: id in Ever(log[|results|].head) && id !in Members(log[|results|].head)
    ensures forall i | 0 <= i < |results| && results[i] == Err(Refused) ::
      exists m, id :: 0 <= m < i && Deleted(log, runs, m, id)
  {
    hide Answers, Sound, CreatedIds, Deleted, Ever, Members;
    var id :| id in Ever(log[|results|].head) && id !in Members(log[|results|].head);
    forall i | 0 <= i < |results| && results[i] == Err(Refused)
      ensures exists m, id :: 0 <= m < i && Deleted(log, runs, m, id)
    {
      assert FinalFrom(log, results, i);
      var m := LastDeletion(log, runs, results, i, id);
    }
  }

  /** A checkpoint that was there once and is not any more was deleted by one of the runs. */
  lemma {:induction false} LastDeletion(log: seq<Logical>, runs: seq<Run>, results: seq<Result<Unit, Failure>>, i: nat,
                                        id: SnapshotId)
    returns (m: nat)
    requires LogOf(log, runs, results) && i <= |results|
    requires id in Ever(log[i].head) && id !in Members(log[i].head)
    ensures m < i && Deleted(log, runs, m, id)
  {
    hide Sound, CreatedIds, FinalFrom, EffectOf, Ever, Members;
    if i == 0 {
      NothingYet(log[0].head, id);
    } else {
      EverGrowsByCreation(log[i - 1], runs[i - 1].request, log[i]);
      if id in Members(log[i - 1].head) {
        m := i - 1;
      } else {
        m := LastDeletion(log, runs, results, i - 1, id);
      }
    }
  }

  lemma NothingYet(h: Head, id: SnapshotId)
    requires h == Initial
    ensures id !in Ever(h)
  {
  }

  // ---------------------------------------------------------------- unreachable errors, and what they rest on

  /**
   No journal of an operation that is still going on is ever refused, and no finished deletion: a
   creation past its publication has its root, a deletion has its root or an exact copy of it, and
   not both at the wrong time.
   */
  lemma RecoveryNeverRefuses(d: Disk, tx: OperationId)
    requires Consistent(d)
    ensures tx in d.creates && !d.creates[tx].state.Prepared? ==> d.creates[tx].id in d.roots
    ensures tx in d.deletes && d.deletes[tx].id in d.roots ==> !d.deletes[tx].state.Uninventoried?
    ensures tx in d.deletes && !(d.deletes[tx].id in d.roots && d.deletes[tx].state.Intended?) ==>
      d.deletes[tx].staged.Exact?
    ensures forall f | f in d.finishedDeletes :: f.id !in d.roots
  {
    ConsistentCases(d);
  }

  /** While the inventory lists the checkpoint being deleted, its root or an exact copy of it is there. */
  lemma DeletedRootSurvives(d: Disk, tx: OperationId)
    requires Consistent(d) && tx in d.deletes && d.deletes[tx].id in Members(d.head)
    ensures d.deletes[tx].id in d.roots || d.deletes[tx].staged.Exact?
    ensures d.deletes[tx].id !in d.roots ==> d.deletes[tx].state.Staged?
  {
    ConsistentCases(d);
  }

  /**
   Deleting a checkpoint beside the finished journal of its creation leaves a disk that every later
   recovery refuses; the deletion of any other checkpoint does not.
   */
  lemma LeftoverJournalBlocks(d: Disk, tx: OperationId, j: DeleteJournal)
    requires Deleting(d, tx, j) && j.state == Staged && j.id in d.roots && !Blocked(d)
    ensures Blocked(d.(roots := d.roots - {j.id})) <==> exists f :: f in d.finishedCreates && f.id == j.id
  {
    var next := d.(roots := d.roots - {j.id});
    if f :| f in d.finishedCreates && f.id == j.id {
      assert f in next.finishedCreates && f.id !in next.roots;
    }
  }

  /**
   The same for a deletion of which only the last write failed: replayed beside a checkpoint
   created meanwhile, it always moves the reference off that checkpoint, and takes it away if it
   had removed the only one. If its row is still in the index, the replay makes the index look
   current although the new checkpoint is missing from it.
   */
  lemma OvertakenReplay(d: Disk, tx: OperationId, id: SnapshotId, create: OperationId, tables: SI.Tables)
    requires Rested(d) && tx in d.deletes && d.deletes[tx].state == Uninventoried
    requires id !in d.roots && id != d.deletes[tx].id
    ensures var j := d.deletes[tx];
      var created := d.(roots := d.roots + {id}, head := Added(d.head, id, create), latest := Some(id));
      && Settled(created.roots, created.head, created.latest)
      && var replayed := created.(latest := j.newLatest);
         && replayed.latest != created.latest
         && (Settled(replayed.roots, replayed.head, replayed.latest) <==> j.newLatest.Some?)
         && (j.updateIndex && d.index.Some? && j.id in d.index.value.Rows() ==>
             tables.snapshots.Keys == d.index.value.Rows() - {j.id} ==>
             !IndexSound(Some(IndexFile(created.head, tables)), created.head))
  {
    ConsistentCases(d);
    var head := Added(d.head, id, create);
    assert Precedes(head, head);
    assert id in Members(head);
  }
}
