/**
 The snapshot inventory (snapshot_inventory.rs). Its head is the digest of a state that names
 the operation, the parent state and the resulting set. Digests do not collide, so a head is
 modelled as the chain of operations it stands for.
 */
module Inventory {
  import opened Outcomes
  import opened Manifests

  type SnapshotId = Digest
  type OperationId = Digest

  datatype Head =
    | Initial
    | Added(parent: Head, id: SnapshotId, operation: OperationId)
    | Removed(parent: Head, id: SnapshotId, operation: OperationId)

  datatype InventoryError = Duplicate | Unknown | HeadChanged | OutsideInventory

  function Members(h: Head): set<SnapshotId> {
    match h
    case Initial => {}
    case Added(parent, id, _) => Members(parent) + {id}
    case Removed(parent, id, _) => Members(parent) - {id}
  }

  function Generation(h: Head): nat {
    if h.Initial? then 0 else Generation(h.parent) + 1
  }

  /** Adds a snapshot to the expected head; a replay finds its own result already in place. */
  function AddIfHead(current: Head, id: SnapshotId, expected: Head,
                     operation: OperationId): Result<Head, InventoryError>
  {
    if id in Members(expected) then Err(Duplicate)
    else CommitIfHead(current, expected, Added(expected, id, operation))
  }

  function RemoveIfHead(current: Head, id: SnapshotId, expected: Head,
                        operation: OperationId): Result<Head, InventoryError>
  {
    if id !in Members(expected) then Err(Unknown)
    else CommitIfHead(current, expected, Removed(expected, id, operation))
  }

  function CommitIfHead(current: Head, expected: Head, next: Head): Result<Head, InventoryError> {
    if current == next then Ok(next)
    else if current != expected then Err(HeadChanged)
    else Ok(next)
  }

  /** `a` is `b` or a state `b` grew out of. */
  predicate Precedes(a: Head, b: Head) {
    a == b || (!b.Initial? && Precedes(a, b.parent))
  }

  lemma {:induction false} PrecedesIsOlder(a: Head, b: Head)
    requires Precedes(a, b)
    ensures Generation(a) <= Generation(b)
    ensures Generation(a) == Generation(b) ==> a == b
  {
    if a != b {
      PrecedesIsOlder(a, b.parent);
    }
  }

  /** A state is never older than itself: no operation leads back to an earlier head. */
  lemma NoReturn(a: Head, b: Head)
    requires Precedes(a, b) && !b.Initial?
    ensures Precedes(a, b.parent) ==> a != b
  {
    if Precedes(a, b.parent) {
      PrecedesIsOlder(a, b.parent);
    }
  }

  /**
   Compare and swap: nothing that was committed is lost, a replay changes nothing, and a refusal
   means that the set was wrong or somebody else committed.
   */
  lemma NoUpdateIsLost(current: Head, id: SnapshotId, expected: Head, operation: OperationId)
    ensures var added := AddIfHead(current, id, expected, operation);
      && (added.Ok? ==>
            && Precedes(current, added.value) && Precedes(expected, current)
            && Members(added.value) == Members(expected) + {id} && id !in Members(expected)
            && AddIfHead(added.value, id, expected, operation) == added)
      && (added.Err? ==> if id in Members(expected) then added.error.Duplicate? else current != expected)
    ensures var removed := RemoveIfHead(current, id, expected, operation);
      && (removed.Ok? ==>
            && Precedes(current, removed.value) && Precedes(expected, current)
            && Members(removed.value) == Members(expected) - {id} && id in Members(expected)
            && RemoveIfHead(removed.value, id, expected, operation) == removed)
      && (removed.Err? ==> if id !in Members(expected) then removed.error.Unknown? else current != expected)
  {
    assert Precedes(expected, expected) && Precedes(current, current);
  }

  // ---------------------------------------------------------------- choosing the next latest

  /** The most recently added id that is still in `remaining`. */
  function NewestSurvivor(h: Head, remaining: set<SnapshotId>): Option<SnapshotId> {
    match h
    case Initial => None
    case Added(parent, id, _) => if id in remaining then Some(id) else NewestSurvivor(parent, remaining)
    case Removed(parent, _, _) => NewestSurvivor(parent, remaining)
  }

  /** The generation of the last addition of `id`, zero if there is none. */
  function LastAddition(h: Head, id: SnapshotId): nat {
    match h
    case Initial => 0
    case Added(parent, other, _) => if other == id then Generation(h) else LastAddition(parent, id)
    case Removed(parent, _, _) => LastAddition(parent, id)
  }

  lemma {:induction false} NewestSurvivorIsNewest(h: Head, remaining: set<SnapshotId>)
    ensures remaining * Members(h) != {} ==> NewestSurvivor(h, remaining).Some?
    ensures NewestSurvivor(h, remaining).Some? ==>
      && NewestSurvivor(h, remaining).value in remaining
      && forall x | x in remaining :: LastAddition(h, x) <= LastAddition(h, NewestSurvivor(h, remaining).value)
    ensures NewestSurvivor(h, remaining).None? ==> forall x | x in remaining :: LastAddition(h, x) == 0
    ensures forall x :: LastAddition(h, x) <= Generation(h)
  {
    if !h.Initial? {
      NewestSurvivorIsNewest(h.parent, remaining);
      if x :| x in remaining * Members(h) {
        assert x in remaining * Members(h.parent) || h.Added?;
      }
    }
  }

  /** What `refs/latest` should name once `removed` is gone. */
  function LatestAfterRemoval(h: Head, removed: SnapshotId, latest: Option<SnapshotId>, parent: Option<SnapshotId>)
    : Result<Option<SnapshotId>, InventoryError>
  {
    if removed !in Members(h) then Err(Unknown)
    else if latest != Some(removed) then
      if latest.Some? && latest.value !in Members(h) then Err(OutsideInventory) else Ok(latest)
    else if Members(h) == {removed} then Ok(None)
    else if parent.Some? && parent.value != removed && parent.value in Members(h) then Ok(parent)
    else
      match NewestSurvivor(h, Members(h) - {removed})
      case Some(id) => Ok(Some(id))
      case None => Err(OutsideInventory)
  }

  lemma {:induction false} MembersWereAdded(h: Head, id: SnapshotId)
    requires id in Members(h)
    ensures 0 < LastAddition(h, id) <= Generation(h)
  {
    if !h.Initial? && id in Members(h.parent) {
      MembersWereAdded(h.parent, id);
    }
  }

  /** No two ids were last added by the same operation. */
  lemma {:induction false} AdditionsDiffer(h: Head, a: SnapshotId, b: SnapshotId)
    requires LastAddition(h, a) == LastAddition(h, b) > 0
    ensures a == b
  {
    NewestSurvivorIsNewest(h.parent, {});
    if h.Removed? || (h.id != a && h.id != b) {
      AdditionsDiffer(h.parent, a, b);
    }
  }

  /**
   With a sound `refs/latest` the choice never fails and keeps an unaffected ref. Of the others it
   is the parent of what was removed, if that is still there, and else the one added last.
   */
  lemma LatestAfterRemovalFits(h: Head, removed: SnapshotId, latest: Option<SnapshotId>, parent: Option<SnapshotId>)
    requires removed in Members(h)
    requires latest.Some? && latest.value in Members(h)
    ensures var r, rest := LatestAfterRemoval(h, removed, latest, parent), Members(h) - {removed};
      && r.Ok?
      && (r.value.None? <==> rest == {})
      && (r.value.Some? ==> r.value.value in rest)
      && (latest.value != removed ==> r.value == latest)
      && (latest.value == removed && parent.Some? && parent.value in rest ==> r.value == parent)
      && (latest.value == removed && !(parent.Some? && parent.value in rest) ==>
            forall id | id in rest && r.value != Some(id) ::
              LastAddition(h, id) < LastAddition(h, r.value.value))
  {
    var rest := Members(h) - {removed};
    NewestSurvivorIsNewest(h, rest);
    if rest == {} {
      assert Members(h) == {removed};
    } else {
      assert rest * Members(h) == rest;
      var newest := NewestSurvivor(h, rest).value;
      forall id | id in rest && id != newest
        ensures LastAddition(h, id) < LastAddition(h, newest)
      {
        MembersWereAdded(h, id);
        if LastAddition(h, id) == LastAddition(h, newest) {
          AdditionsDiffer(h, id, newest);
        }
      }
    }
  }

  /** It fails only for an unknown snapshot, or with a `refs/latest` that names an unknown one. */
  lemma LatestAfterRemovalFails(h: Head, removed: SnapshotId, latest: Option<SnapshotId>, parent: Option<SnapshotId>)
    ensures LatestAfterRemoval(h, removed, latest, parent).Err?
       <==> removed !in Members(h) || (latest.Some? && latest.value !in Members(h))
  {
    if removed in Members(h) && latest == Some(removed) {
      LatestAfterRemovalFits(h, removed, latest, parent);
    }
  }

  // ---------------------------------------------------------------- the latest is the newest

  /** `refs/latest` names the member added last, or nothing if there is none. */
  ghost predicate LatestIsNewest(h: Head, latest: Option<SnapshotId>) {
    && (latest.None? <==> Members(h) == {})
    && (latest.Some? ==>
          && latest.value in Members(h)
          && forall id | id in Members(h) :: LastAddition(h, id) <= LastAddition(h, latest.value))
  }

  /** Every snapshot was added with the newest one before it as its parent. */
  ghost predicate ParentsRight(h: Head, parentOf: SnapshotId -> Option<SnapshotId>) {
    match h
    case Initial => true
    case Added(before, id, _) => ParentsRight(before, parentOf) && LatestIsNewest(before, parentOf(id))
    case Removed(before, _, _) => ParentsRight(before, parentOf)
  }

  /** What is older than a snapshot is not newer than its parent. */
  lemma {:induction false} ParentIsNext(h: Head, parentOf: SnapshotId -> Option<SnapshotId>, id: SnapshotId,
                                        other: SnapshotId)
    requires ParentsRight(h, parentOf) && id in Members(h) && other in Members(h)
    requires LastAddition(h, other) < LastAddition(h, id)
    requires parentOf(id).Some?
    ensures LastAddition(h, other) <= LastAddition(h, parentOf(id).value)
  {
    NewestSurvivorIsNewest(h.parent, {});
    if h.Removed? || h.id != id {
      ParentIsNext(h.parent, parentOf, id, other);
    }
  }

  lemma AdditionKeepsNewest(h: Head, id: SnapshotId, operation: OperationId)
    ensures LatestIsNewest(Added(h, id, operation), Some(id))
  {
    NewestSurvivorIsNewest(Added(h, id, operation), {});
  }

  /** A removal keeps the latest the newest: parents lead back to what was added before. */
  lemma RemovalKeepsNewest(h: Head, removed: SnapshotId, latest: Option<SnapshotId>, operation: OperationId,
                           parentOf: SnapshotId -> Option<SnapshotId>)
    requires ParentsRight(h, parentOf) && LatestIsNewest(h, latest) && removed in Members(h)
    ensures var r := LatestAfterRemoval(h, removed, latest, parentOf(removed));
      r.Ok? && LatestIsNewest(Removed(h, removed, operation), r.value)
  {
    hide LatestAfterRemoval;
    var parent := parentOf(removed);
    LatestAfterRemovalFits(h, removed, latest, parent);
    var rest := Members(h) - {removed};
    if latest == Some(removed) && parent.Some? && parent.value in rest {
      forall id | id in rest
        ensures LastAddition(h, id) <= LastAddition(h, parent.value)
      {
        MembersWereAdded(h, id);
        if LastAddition(h, id) == LastAddition(h, removed) {
          AdditionsDiffer(h, id, removed);
        }
        ParentIsNext(h, parentOf, removed, id);
      }
    }
  }
}
