/**
 Turning a copied project, or one whose storage is lost, into a separate project (project.rs).
 The operation is resumable: a pending file fixes the new id and storage before anything else
 exists, and the marker is switched last. Every durable write spends one unit of a budget and
 the process stops when it runs out, so a run can stop before any write.
 */
module SeparateInit {
  import opened Outcomes
  import opened ProjectRegistry

  /** How far a repository's layout has been created. */
  datatype RepositoryState = Directories | Configured | Ready

  datatype Reason = CopiedProject | StorageLoss

  datatype Phase = Prepared | RepositoryInitialized | Registered

  /** What the pending file fixes once and for all. */
  datatype Operation = Operation(previous: ProjectId, id: ProjectId, storage: StorageRoot, reason: Reason)

  datatype Pending = Pending(operation: Operation, phase: Phase)

  datatype Disk = Disk(
    marker: Option<ProjectId>,
    pending: Option<Pending>,
    registry: Registry,
    repositories: map<(StorageRoot, ProjectId), RepositoryState>)

  datatype InitError =
    | Crashed
    | DifferentReason
    | StorageRootConflict
    | MarkerMismatch
    | NotRegistered
    | AlreadyRegistered
    | NoMarker
    | NotACopy
    | IsACopy
    | RepositoryStillThere

  /**
     One call: its arguments, a fresh id in case it begins an operation, and its circumstances.
     `others` are registry entries that other projects wrote since the previous call.
   */
  datatype Attempt = Attempt(
    reason: Reason,
    requested: Option<StorageRoot>,
    defaultStorage: StorageRoot,
    freshId: ProjectId,
    registeredRootHasMarker: bool,
    cleanupFails: bool,
    budget: nat,
    others: Registry)

  predicate RepositoryReady(disk: Disk, op: Operation) {
    (op.storage, op.id) in disk.repositories && disk.repositories[(op.storage, op.id)].Ready?
  }

  predicate IsRegistered(root: Root, disk: Disk, op: Operation) {
    op.id in disk.registry && disk.registry[op.id] == Claim(root, op.storage)
  }

  /** The new project exists in full before its id becomes the marker. */
  predicate Usable(root: Root, disk: Disk, op: Operation) {
    RepositoryReady(disk, op) && IsRegistered(root, disk, op)
  }

  /** No repository of the new id lies anywhere but in the chosen storage. */
  ghost predicate OneHome(disk: Disk, id: ProjectId, storage: StorageRoot) {
    forall k | k in disk.repositories && k.1 == id :: k.0 == storage
  }

  /** What a pending file promises about everything else. */
  ghost predicate PendingSound(root: Root, disk: Disk, pending: Pending) {
    var op := pending.operation;
    && op.previous != op.id && op.previous in disk.registry
    && (disk.marker == Some(op.previous) || disk.marker == Some(op.id))
    && OneHome(disk, op.id, op.storage)
    && (op.id in disk.registry ==> disk.registry[op.id] == Claim(root, op.storage))
    && (pending.phase.Prepared? ==> op.id !in disk.registry)
    && (!pending.phase.Prepared? ==> RepositoryReady(disk, op))
    && (pending.phase.Registered? ==> op.id in disk.registry)
    && (disk.marker == Some(op.id) ==> pending.phase.Registered?)
  }

  ghost predicate Consistent(root: Root, disk: Disk) {
    disk.pending.Some? ==> PendingSound(root, disk, disk.pending.value)
  }

  predicate Fresh(disk: Disk, id: ProjectId) {
    id !in disk.registry && disk.marker != Some(id) && forall k | k in disk.repositories :: k.1 != id
  }

  /** Between two states only the new id's entry, the new repository, the marker and the pending file changed. */
  ghost predicate Within(root: Root, op: Operation, before: Disk, after: Disk) {
    && (after.registry == before.registry || after.registry == before.registry[op.id := Claim(root, op.storage)])
    && (forall k | k != (op.storage, op.id) :: (k in after.repositories <==> k in before.repositories)
                                             && (k in before.repositories ==>
                                               after.repositories[k] == before.repositories[k]))
    && (after.marker == before.marker || (after.marker == Some(op.id) && Usable(root, after, op)))
    && ((op.storage, op.id) in before.repositories ==> (op.storage, op.id) in after.repositories)
    && (after.pending.Some? ==> after.pending.value.operation == op)
    && (after.pending.None? && before.pending.Some? ==> after.marker == Some(op.id) && Usable(root, after, op))
  }

  lemma WithinIsTransitive(root: Root, op: Operation, a: Disk, b: Disk, c: Disk)
    requires Within(root, op, a, b) && Within(root, op, b, c)
    requires Usable(root, b, op) ==> Usable(root, c, op)
    ensures Within(root, op, a, c)
  {
    assert forall k | k != (op.storage, op.id) ::
      (k in c.repositories <==> k in b.repositories) && (k in b.repositories <==> k in a.repositories);
  }

  class SeparateProject {
    const root: Root
    var disk: Disk
    var budget: nat

    constructor (root: Root, disk: Disk)
      ensures this.root == root && this.disk == disk && budget == 0
    {
      this.root, this.disk, this.budget := root, disk, 0;
    }

    /** A durable write, unless the process stops right before it. */
    method Write(next: Disk) returns (res: Result<Unit, InitError>)
      modifies this
      ensures res.Ok? <==> old(budget) > 0
      ensures res.Ok? ==> disk == next && budget == old(budget) - 1
      ensures res.Err? ==> disk == old(disk) && res.error.Crashed? && budget == 0
    {
      if budget == 0 {
        return Err(Crashed);
      }
      disk, budget := next, budget - 1;
      return Ok(Done);
    }

    /** init_repo_layout: directories, then the configuration, then the inventory; what exists is kept. */
    method InitRepository(op: Operation) returns (res: Result<Unit, InitError>)
      requires disk.pending.Some? && disk.pending.value.operation == op && Consistent(root, disk)
      modifies this
      ensures Consistent(root, disk) && Within(root, op, old(disk), disk) && disk.pending == old(disk.pending)
        && disk.marker == old(disk.marker)
      ensures disk.registry == old(disk.registry)
      ensures res.Ok? ==> RepositoryReady(disk, op) && budget >= old(budget) - 3
      ensures res.Err? ==> res.error.Crashed? && old(budget) < 3 && budget == 0
    {
      var key := (op.storage, op.id);
      if key !in disk.repositories {
        var _ :- Write(disk.(repositories := disk.repositories[key := Directories]));
      }
      if disk.repositories[key].Directories? {
        var _ :- Write(disk.(repositories := disk.repositories[key := Configured]));
      }
      if disk.repositories[key].Configured? {
        var _ :- Write(disk.(repositories := disk.repositories[key := Ready]));
      }
      return Ok(Done);
    }

    method EnterPhase(op: Operation, phase: Phase) returns (res: Result<Unit, InitError>)
      requires disk.pending.Some? && disk.pending.value.operation == op && Consistent(root, disk)
      requires PendingSound(root, disk, Pending(op, phase))
      modifies this
      ensures Consistent(root, disk) && Within(root, op, old(disk), disk)
      ensures disk == old(disk).(pending := disk.pending) && disk.pending.Some? && disk.pending.value.operation == op
      ensures res.Ok? ==> disk.pending == Some(Pending(op, phase)) && budget >= old(budget) - 1
      ensures res.Err? ==> res.error.Crashed? && old(budget) == 0 && budget == 0 && disk == old(disk)
    {
      res := Write(disk.(pending := Some(Pending(op, phase))));
    }

    method Register(op: Operation) returns (res: Result<Unit, InitError>)
      requires disk.pending.Some? && disk.pending.value.operation == op && !disk.pending.value.phase.Prepared?
        && Consistent(root, disk)
      modifies this
      ensures Consistent(root, disk) && Within(root, op, old(disk), disk) && disk.pending == old(disk.pending)
        && disk.marker == old(disk.marker)
      ensures res.Ok? ==> Usable(root, disk, op) && budget >= old(budget) - 1
      ensures res.Err? ==> res.error.Crashed? && old(budget) == 0 && budget == 0 && disk == old(disk)
    {
      res := Write(disk.(registry := disk.registry[op.id := Claim(root, op.storage)]));
    }

    method SwitchMarker(op: Operation) returns (res: Result<Unit, InitError>)
      requires disk.pending == Some(Pending(op, Registered)) && Consistent(root, disk)
      modifies this
      ensures Consistent(root, disk) && Within(root, op, old(disk), disk) && disk.pending == old(disk.pending)
      ensures res.Ok? ==> disk.marker == Some(op.id) && budget >= old(budget) - 1
      ensures res.Err? ==> res.error.Crashed? && old(budget) == 0 && budget == 0 && disk == old(disk)
    {
      res := Write(disk.(marker := Some(op.id)));
    }

    /** The operation is committed; a pending file that cannot be removed only costs a later retry. */
    method Finalize(op: Operation, cleanupFails: bool)
      requires disk.pending == Some(Pending(op, Registered)) && Consistent(root, disk) && disk.marker == Some(op.id)
      modifies this
      ensures Consistent(root, disk) && Within(root, op, old(disk), disk)
      ensures disk == old(disk) || disk == old(disk).(pending := None)
      ensures !cleanupFails && old(budget) > 0 ==> disk.pending.None?
    {
      if !cleanupFails {
        var _ := Write(disk.(pending := None));
      }
    }

    /** Everything from the pending file on; at most seven writes. */
    method Complete(op: Operation, cleanupFails: bool) returns (res: Result<Unit, InitError>)
      requires disk.pending.Some? && disk.pending.value.operation == op && Consistent(root, disk)
      modifies this
      ensures Consistent(root, disk) && Within(root, op, old(disk), disk)
      ensures disk.pending.None? ==> disk.marker == Some(op.id) && Usable(root, disk, op)
      ensures res.Ok? ==> disk.marker == Some(op.id) && Usable(root, disk, op)
      ensures res.Ok? && old(budget) >= 8 && !cleanupFails ==> disk.pending.None?
      ensures res.Err? ==> res.error.Crashed? && old(budget) < 7 && budget == 0
    {
      hide Within, OneHome;
      WithinSelf(root, op, disk);
      ghost var d0 := disk;
      var _ :- InitRepository(op);
      ghost var d1 := disk;
      if disk.pending.value.phase.Prepared? {
        var _ :- EnterPhase(op, RepositoryInitialized);
      }
      WithinIsTransitive(root, op, d0, d1, disk);
      ghost var d2 := disk;
      var _ :- Register(op);
      WithinIsTransitive(root, op, d0, d2, disk);
      ghost var d3 := disk;
      if !disk.pending.value.phase.Registered? {
        var _ :- EnterPhase(op, Registered);
      }
      WithinIsTransitive(root, op, d0, d3, disk);
      ghost var d4 := disk;
      var _ :- SwitchMarker(op);
      WithinIsTransitive(root, op, d0, d4, disk);
      ghost var d5 := disk;
      Finalize(op, cleanupFails);
      WithinIsTransitive(root, op, d0, d5, disk);
      return Ok(Done);
    }

    /** What an attempt without a pending operation requires of the current project. */
    method Decide(attempt: Attempt) returns (res: Result<Operation, InitError>)
      requires disk.pending.None? && Fresh(disk, attempt.freshId)
      ensures res.Ok? <==> MayBegin(root, disk, attempt)
      ensures res.Ok? ==> Begins(disk, attempt, res.value)
      ensures res.Err? ==> Objection(root, disk, attempt, res.error)
    {
      if disk.marker.None? {
        return Err(NoMarker);
      }
      var previous := disk.marker.value;
      if previous !in disk.registry {
        return Err(NotRegistered);
      }
      var entry := disk.registry[previous];
      var copied := entry.root != root && attempt.registeredRootHasMarker;
      match attempt.reason {
        case CopiedProject =>
          if !copied {
            return Err(NotACopy);
          }
        case StorageLoss =>
          if copied {
            return Err(IsACopy);
          }
          if (entry.storage, previous) in disk.repositories {
            return Err(RepositoryStillThere);
          }
      }
      var storage := if attempt.requested.Some? then attempt.requested.value else attempt.defaultStorage;
      return Ok(Operation(previous, attempt.freshId, storage, attempt.reason));
    }

    /** What a retry must agree with before it goes on with the pending operation. */
    method Resume(attempt: Attempt, pending: Pending) returns (res: Result<Unit, InitError>)
      requires disk.pending == Some(pending) && PendingSound(root, disk, pending)
      ensures res.Ok? <==> Agrees(attempt, pending.operation)
      ensures res.Err? ==>
        res.error == if attempt.reason != pending.operation.reason then DifferentReason else StorageRootConflict
    {
      var op := pending.operation;
      if op.reason != attempt.reason {
        return Err(DifferentReason);
      }
      if attempt.requested.Some? && attempt.requested.value != op.storage {
        return Err(StorageRootConflict);
      }
      if disk.marker.Some? && disk.marker.value != op.id && disk.marker.value != op.previous {
        return Err(MarkerMismatch);
      }
      if op.previous !in disk.registry {
        return Err(NotRegistered);
      }
      if op.id in disk.registry && disk.registry[op.id].root != root {
        return Err(AlreadyRegistered);
      }
      if op.id in disk.registry && disk.registry[op.id].storage != op.storage {
        return Err(StorageRootConflict);
      }
      return Ok(Done);
    }

    /**
     One call. A pending operation keeps its id and storage and completes unless the process stops;
     every refusal leaves the disk alone; nothing outside the operation ever changes.
     */
    method StartSeparate(attempt: Attempt) returns (res: Result<Operation, InitError>, ghost op: Option<Operation>)
      requires Consistent(root, disk) && (disk.pending.None? ==> Fresh(disk, attempt.freshId))
      modifies this
      ensures Consistent(root, disk)
      ensures op.None? ==> disk == old(disk) && res.Err?
      ensures op.Some? ==> Within(root, op.value, old(disk), disk)
      ensures op.Some? && disk.pending.None? ==> disk.marker == Some(op.value.id) && Usable(root, disk, op.value)
      ensures op.Some? && old(disk).pending.Some? ==>
        op.value == old(disk).pending.value.operation && Agrees(attempt, op.value)
      ensures op.Some? && old(disk).pending.None? ==>
        MayBegin(root, old(disk), attempt) && Begins(old(disk), attempt, op.value)
      ensures res.Ok? ==> op == Some(res.value) && disk.marker == Some(res.value.id) && Usable(root, disk, res.value)
      ensures res.Err? && !res.error.Crashed? ==> disk == old(disk)
      ensures res.Err? && res.error.Crashed? ==> budget == 0 && attempt.budget < 8
      ensures res.Err? && !res.error.Crashed? ==>
        if old(disk).pending.None? then Objection(root, old(disk), attempt, res.error)
        else !Agrees(attempt, old(disk).pending.value.operation)
      ensures res.Ok? && !attempt.cleanupFails && attempt.budget >= 9 ==> disk.pending.None?
      ensures old(disk).pending.None? && MayBegin(root, old(disk), attempt) && attempt.budget > 0 ==> op.Some?
      ensures old(disk).pending.Some? && Agrees(attempt, old(disk).pending.value.operation) && attempt.budget >= 7 ==>
        res.Ok?
      ensures old(disk).pending.None? && MayBegin(root, old(disk), attempt) && attempt.budget >= 8 ==> res.Ok?
    {
      hide Within, OneHome;
      op := None;
      budget := attempt.budget;
      if disk.pending.Some? {
        var pending := disk.pending.value;
        var _ :- Resume(attempt, pending);
        op := Some(pending.operation);
        WithinSelf(root, pending.operation, disk);
        if disk.marker == Some(pending.operation.id) {
          Finalize(pending.operation, attempt.cleanupFails);
          return Ok(pending.operation), op;
        }
        var _ :- Complete(pending.operation, attempt.cleanupFails);
        return Ok(pending.operation), op;
      }
      var begun :- Decide(attempt);
      BeginsSound(root, disk, attempt, begun);
      ghost var d0 := disk;
      var written := Write(disk.(pending := Some(Pending(begun, Prepared))));
      if written.Err? {
        return Err(Crashed), None;
      }
      op := Some(begun);
      ghost var d1 := disk;
      var completed := Complete(begun, attempt.cleanupFails);
      WithinIsTransitive(root, begun, d0, d1, disk);
      if completed.Err? {
        return Err(Crashed), op;
      }
      return Ok(begun), op;
    }
  }

  /** The conditions under which a new operation may begin. */
  predicate MayBegin(root: Root, disk: Disk, attempt: Attempt) {
    disk.marker.Some? && disk.marker.value in disk.registry &&
    var entry := disk.registry[disk.marker.value];
    var copied := entry.root != root && attempt.registeredRootHasMarker;
    match attempt.reason
    case CopiedProject => copied
    case StorageLoss => !copied && (entry.storage, disk.marker.value) !in disk.repositories
  }

  /** Why an operation may not begin. */
  predicate Objection(root: Root, disk: Disk, attempt: Attempt, error: InitError) {
    if disk.marker.None? then error.NoMarker?
    else if disk.marker.value !in disk.registry then error.NotRegistered?
    else
      var entry := disk.registry[disk.marker.value];
      if attempt.reason.CopiedProject? then
        error.NotACopy? && (entry.root == root || !attempt.registeredRootHasMarker)
      else if entry.root != root && attempt.registeredRootHasMarker then error.IsACopy?
      else error.RepositoryStillThere? && (entry.storage, disk.marker.value) in disk.repositories
  }

  predicate Begins(disk: Disk, attempt: Attempt, op: Operation) {
    && disk.marker == Some(op.previous) && op.id == attempt.freshId && op.reason == attempt.reason
    && op.storage == (if attempt.requested.Some? then attempt.requested.value else attempt.defaultStorage)
  }

  predicate Agrees(attempt: Attempt, op: Operation) {
    attempt.reason == op.reason && (attempt.requested.Some? ==> attempt.requested.value == op.storage)
  }

  lemma BeginsSound(root: Root, disk: Disk, attempt: Attempt, op: Operation)
    requires disk.pending.None? && Fresh(disk, attempt.freshId) && Begins(disk, attempt, op)
      && MayBegin(root, disk, attempt)
    ensures Consistent(root, disk.(pending := Some(Pending(op, Prepared))))
    ensures Within(root, op, disk, disk.(pending := Some(Pending(op, Prepared))))
  {
  }

  // ---------------------------------------------------------------- any number of calls

  function FreshIds(attempts: seq<Attempt>): set<ProjectId> {
    set a | a in attempts :: a.freshId
  }

  /** Where a project that started as `first` can be after any calls. */
  ghost predicate Reached(root: Root, first: Disk, disk: Disk, unused: set<ProjectId>, op: Option<Operation>) {
    && Consistent(root, disk) && first.marker.Some? && first.marker.value in first.registry
    && first.marker.value in disk.registry && disk.registry[first.marker.value] == first.registry[first.marker.value]
    && (forall id | id in unused :: Fresh(disk, id) && (disk.pending.Some? ==> disk.pending.value.operation.id != id))
    && (op.None? ==> disk.marker == first.marker && disk.pending.None? && disk.repositories == first.repositories)
    && (op.Some? ==> OperationReached(root, first, disk, op.value))
  }

  /** One operation, one new repository, and the marker only after both it and the registry entry exist. */
  ghost predicate OperationReached(root: Root, first: Disk, disk: Disk, op: Operation) {
    && Some(op.previous) == first.marker && op.id != op.previous
    && (forall k | k != (op.storage, op.id) :: (k in disk.repositories <==> k in first.repositories)
                                             && (k in first.repositories ==>
                                               disk.repositories[k] == first.repositories[k]))
    && (disk.pending.Some? ==> disk.pending.value.operation == op)
    && (disk.marker == first.marker || (disk.marker == Some(op.id) && Usable(root, disk, op)))
    && (disk.pending.None? ==> disk.marker == Some(op.id))
  }

  ghost predicate Unaffected(reserved: set<ProjectId>, before: Disk, after: Disk) {
    after == before.(registry := after.registry)
    && forall id | id in reserved ::
      (id in after.registry <==> id in before.registry)
      && (id in before.registry ==> after.registry[id] == before.registry[id])
  }

  lemma OthersKeepReached(root: Root, first: Disk, before: Disk, after: Disk, unused: set<ProjectId>,
                          reserved: set<ProjectId>, op: Option<Operation>)
    requires Reached(root, first, before, unused, op) && Unaffected(reserved, before, after)
    requires unused <= reserved && first.marker.value in reserved && (op.Some? ==> op.value.id in reserved)
    ensures Reached(root, first, after, unused, op)
  {
    if before.pending.Some? {
      assert before.pending.value.operation.id in reserved;
    }
  }

  /** A finished operation leaves nothing for another one to begin with. */
  lemma NothingBeginsTwice(root: Root, first: Disk, disk: Disk, unused: set<ProjectId>, op: Operation, attempt: Attempt)
    requires Reached(root, first, disk, unused, Some(op)) && disk.pending.None?
    ensures !MayBegin(root, disk, attempt)
  {
  }

  lemma CallKeepsReached(root: Root, first: Disk, before: Disk, after: Disk, unused: set<ProjectId>,
                         op: Option<Operation>, attempt: Attempt, current: Option<Operation>)
    requires Reached(root, first, before, unused, op) && attempt.freshId in unused && Consistent(root, after)
    requires current.None? ==> after == before
    requires current.Some? ==> Within(root, current.value, before, after)
    requires current.Some? && after.pending.None? ==>
      after.marker == Some(current.value.id) && Usable(root, after, current.value)
    requires current.Some? && before.pending.Some? ==> current.value == before.pending.value.operation
    requires current.Some? && before.pending.None? ==>
      MayBegin(root, before, attempt) && Begins(before, attempt, current.value)
    ensures Reached(root, first, after, unused - {attempt.freshId}, if op.Some? then op else current)
  {
    if current.Some? {
      if op.Some? && before.pending.None? {
        NothingBeginsTwice(root, first, before, unused, op.value, attempt);
      }
      assert op.Some? ==> current == op;
      OnlyOneRepository(root, first, before, after, current.value);
    }
  }

  lemma OnlyOneRepository(root: Root, first: Disk, before: Disk, after: Disk, op: Operation)
    requires Within(root, op, before, after)
    requires forall k | k != (op.storage, op.id) :: (k in before.repositories <==> k in first.repositories)
                                                && (k in first.repositories ==>
                                                  before.repositories[k] == first.repositories[k])
    ensures forall k | k != (op.storage, op.id) :: (k in after.repositories <==> k in first.repositories)
                                               && (k in first.repositories ==>
                                                 after.repositories[k] == first.repositories[k])
  {
    forall k | k != (op.storage, op.id)
      ensures (k in after.repositories <==> k in first.repositories)
        && (k in first.repositories ==> after.repositories[k] == first.repositories[k])
    {
      assert k in after.repositories <==> k in before.repositories;
    }
  }

  /**
     Any calls in a row, each stopping anywhere, with other projects registering in between: one
     operation at most is ever begun, it creates one repository, and the previous project's
     registry entry is what it was. It is begun by any call that may begin it and makes one write,
     and completed by any such call with the same reason and storage that makes eight.
   */
  method Calls(project: SeparateProject, attempts: seq<Attempt>) returns (ghost op: Option<Operation>)
    requires project.disk.marker.Some? && project.disk.marker.value in project.disk.registry
      && project.disk.pending.None?
    requires forall a | a in attempts :: Fresh(project.disk, a.freshId)
    requires forall i, j | 0 <= i < j < |attempts| :: attempts[i].freshId != attempts[j].freshId
    modifies project
    ensures Reached(project.root, old(project.disk), project.disk, {}, op)
    ensures forall a | a in attempts && MayBegin(project.root, old(project.disk), a) && a.budget > 0 :: op.Some?
    ensures op.Some? ==> forall a | a in attempts && Finishes(project.root, old(project.disk), a, op.value) ::
      project.disk.marker == Some(op.value.id)
  {
    hide Reached, Fresh, Within, Consistent, MayBegin, Begins, Usable;
    op := None;
    ghost var first := project.disk;
    var reserved := FreshIds(attempts) + {project.disk.marker.value};
    ReachedBegins(project.root, first, FreshIds(attempts));
    assert attempts[0..] == attempts;
    for i := 0 to |attempts|
      invariant Reached(project.root, first, project.disk, FreshIds(attempts[i..]), op)
      invariant op.Some? ==> op.value.id in reserved
      invariant op.None? ==>
        forall k | 0 <= k < i :: !MayBegin(project.root, first, attempts[k]) || attempts[k].budget == 0
      invariant op.Some? ==> forall k | 0 <= k < i && Finishes(project.root, first, attempts[k], op.value) ::
        project.disk.marker == Some(op.value.id)
    {
      var attempt := attempts[i];
      ghost var unused := FreshIds(attempts[i..]);
      LaterIds(attempts, i);
      ghost var before := project.disk;
      project.disk := project.disk.(registry := project.disk.registry + (attempt.others - reserved));
      OthersKeepReached(project.root, first, before, project.disk, unused, reserved, op);
      ReachedGives(project.root, first, project.disk, unused, op, attempt.freshId);
      ghost var between := project.disk;
      ghost var current;
      var res;
      res, current := project.StartSeparate(attempt);
      ReachedOperation(project.root, first, between, unused, op, attempt, current);
      CallKeepsReached(project.root, first, between, project.disk, unused, op, attempt, current);
      MayStillBegin(project.root, first, between, unused, op, attempt);
      CallCompletes(project.root, first, between, project.disk, unused, op, attempt, current, res);
      op := if op.Some? then op else current;
    }
    assert attempts[|attempts|..] == [];
    assert FreshIds([]) == {};
  }

  /** A call that may begin the operation, and with which it is then completed. */
  predicate Finishes(root: Root, first: Disk, attempt: Attempt, op: Operation) {
    MayBegin(root, first, attempt) && Agrees(attempt, op) && attempt.budget >= 8
  }

  lemma MayStillBegin(root: Root, first: Disk, disk: Disk, unused: set<ProjectId>, op: Option<Operation>,
                      attempt: Attempt)
    requires Reached(root, first, disk, unused, op)
    ensures op.None? ==> disk.pending.None? && (MayBegin(root, disk, attempt) <==> MayBegin(root, first, attempt))
  {
  }

  /** A completed operation stays completed, and a call with all it takes completes it. */
  lemma CallCompletes(root: Root, first: Disk, before: Disk, after: Disk, unused: set<ProjectId>,
                      op: Option<Operation>, attempt: Attempt, current: Option<Operation>,
                      res: Result<Operation, InitError>)
    requires Reached(root, first, before, unused, op)
    requires current.None? ==> after == before
    requires current.Some? ==> Within(root, current.value, before, after)
    requires current.Some? && before.pending.Some? ==> current.value == before.pending.value.operation
    requires current.Some? && before.pending.None? ==> MayBegin(root, before, attempt)
    requires res.Ok? ==> current == Some(res.value) && after.marker == Some(res.value.id)
    requires before.pending.Some? && Agrees(attempt, before.pending.value.operation) && attempt.budget >= 7 ==> res.Ok?
    requires before.pending.None? && MayBegin(root, before, attempt) && attempt.budget >= 8 ==> res.Ok?
    ensures var begun := if op.Some? then op else current;
      begun.Some?
        && ((op.Some? && before.marker == Some(begun.value.id)) || Finishes(root, first, attempt, begun.value))
      ==> after.marker == Some(begun.value.id)
  {
    if op.Some? && before.pending.None? {
      NothingBeginsTwice(root, first, before, unused, op.value, attempt);
    }
    if op.None? {
      MayStillBegin(root, first, before, unused, op, attempt);
    }
  }

  lemma ReachedBegins(root: Root, first: Disk, unused: set<ProjectId>)
    requires first.marker.Some? && first.marker.value in first.registry && first.pending.None?
    requires forall id | id in unused :: Fresh(first, id)
    ensures Reached(root, first, first, unused, None)
  {
  }

  lemma ReachedGives(root: Root, first: Disk, disk: Disk, unused: set<ProjectId>, op: Option<Operation>, id: ProjectId)
    requires Reached(root, first, disk, unused, op) && id in unused
    ensures Consistent(root, disk) && Fresh(disk, id)
  {
  }

  lemma ReachedOperation(root: Root, first: Disk, disk: Disk, unused: set<ProjectId>, op: Option<Operation>,
                         attempt: Attempt, current: Option<Operation>)
    requires Reached(root, first, disk, unused, op)
    requires current.Some? && disk.pending.Some? ==> current.value == disk.pending.value.operation
    requires current.Some? && disk.pending.None? ==> Begins(disk, attempt, current.value)
    ensures op.None? && current.Some? ==> current.value.id == attempt.freshId
  {
  }

  lemma LaterIds(attempts: seq<Attempt>, i: nat)
    requires i < |attempts| && forall i, j | 0 <= i < j < |attempts| :: attempts[i].freshId != attempts[j].freshId
    ensures FreshIds(attempts[i..]) - {attempts[i].freshId} == FreshIds(attempts[i + 1..])
    ensures attempts[i].freshId in FreshIds(attempts[i..]) && FreshIds(attempts[i..]) <= FreshIds(attempts)
  {
    var rest := attempts[i + 1..];
    assert attempts[i..] == [attempts[i]] + rest;
    assert forall a | a in rest :: a.freshId != attempts[i].freshId;
    assert forall a | a in attempts[i..] :: a in attempts;
  }

  lemma WithinSelf(root: Root, op: Operation, disk: Disk)
    requires disk.pending.Some? && disk.pending.value.operation == op
    ensures Within(root, op, disk, disk)
  {
  }
}
