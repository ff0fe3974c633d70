/**
 What journals left behind can lead to (checkpoint_create_journal.rs, checkpoint.rs). The code
 only warns when a finished journal cannot be removed, or when a deletion cannot write its last
 state, and leaves the journal to the next recovery. That recovery insists on more than such an
 operation needs: a creation journal on its published root, a deletion journal on the manifest of
 its staged copy. This module says exactly which calls make it refuse, and that it then refuses
 for good. Calls are whole here; stops inside them are the subject of CheckpointProtocol, and what
 a replay does to `refs/latest` that of UnfinishedDeletions.
 */
module LeftoverJournals {
  import opened Inventory

  datatype Request =
    | Create(id: SnapshotId, tx: OperationId)
    | Delete(id: SnapshotId, tx: OperationId)
    | Sweep(lost: set<SnapshotId>)

  /** A request and the operations whose journals cannot be removed while it is served. */
  datatype Call = Call(request: Request, stuck: set<OperationId>)

  type Journals = map<OperationId, SnapshotId>

  /** `live` have published roots, the manifests of `readable` are complete. */
  datatype State = State(live: set<SnapshotId>, readable: set<SnapshotId>, created: Journals, deleted: Journals)

  ghost predicate Within(journals: Journals, ids: set<SnapshotId>) {
    forall tx | tx in journals :: journals[tx] in ids
  }

  /** Recovery can get past every finished journal. */
  ghost predicate Recoverable(s: State) {
    Within(s.created, s.live) && Within(s.deleted, s.readable)
  }

  function Stuck(journals: Journals, stuck: set<OperationId>): Journals {
    map tx | tx in journals && tx in stuck :: journals[tx]
  }

  /** Published manifests are complete, and a snapshot with a deletion journal is not published. */
  ghost predicate Valid(s: State) {
    s.live <= s.readable && forall tx | tx in s.deleted :: s.deleted[tx] !in s.live
  }

  /** A caller can check this before the call: no finished journal stands on what the call takes away. */
  ghost predicate Harmless(s: State, call: Call) {
    match call.request
    case Create(_, _) => true
    case Delete(id, _) => id in s.live ==> forall tx | tx in s.created && tx in call.stuck :: s.created[tx] != id
    case Sweep(lost) => forall tx | tx in s.deleted && tx in call.stuck :: s.deleted[tx] !in lost
  }

  /** A creation brings a new id under a new operation. */
  predicate Fresh(s: State, request: Request) {
    match request
    case Create(id, tx) => id !in s.readable && tx !in s.created && (forall t | t in s.deleted :: s.deleted[t] != id)
    case Delete(_, tx) => tx !in s.deleted
    case Sweep(_) => true
  }

  /** The effect of a call that recovery lets through. */
  function Served(s: State, call: Call): State {
    var created, deleted := Stuck(s.created, call.stuck), Stuck(s.deleted, call.stuck);
    match call.request
    case Create(id, tx) =>
      State(s.live + {id}, s.readable + {id}, if tx in call.stuck then created[tx := id] else created, deleted)
    case Delete(id, tx) =>
      if id !in s.live then s.(created := created, deleted := deleted)
      else State(s.live - {id}, s.readable, created, if tx in call.stuck then deleted[tx := id] else deleted)
    case Sweep(lost) =>
      State(s.live, s.readable - (lost - s.live), created, deleted)
  }

  /** A served call leaves recovery able to run again exactly when it was harmless. */
  lemma ServedIsRecoverable(s: State, call: Call)
    requires Valid(s) && Recoverable(s) && Fresh(s, call.request)
    ensures Valid(Served(s, call))
    ensures Recoverable(Served(s, call)) <==> Harmless(s, call)
  {
    var after := Served(s, call);
    match call.request
    case Create(id, tx) =>
    case Delete(id, tx) =>
      if id in s.live && !Harmless(s, call) {
        var t :| t in s.created && t in call.stuck && s.created[t] == id;
        assert t in after.created && after.created[t] !in after.live;
      }
    case Sweep(lost) =>
      if !Harmless(s, call) {
        var t :| t in s.deleted && t in call.stuck && s.deleted[t] in lost;
        assert t in after.deleted && after.deleted[t] !in after.readable;
      }
  }

  class Repository {
    var state: State

    constructor ()
      ensures state == State({}, {}, map[], map[]) && Valid(state) && Recoverable(state)
    {
      state := State({}, {}, map[], map[]);
    }

    /** Goes through the finished creation journals; the first without a published root stops it. */
    method RecoverCreations(stuck: set<OperationId>) returns (ok: bool)
      requires Valid(state)
      modifies this
      ensures Valid(state) && (ok <==> Within(old(state).created, state.live))
      ensures ok ==> state == old(state).(created := Stuck(old(state).created, stuck))
      ensures !ok ==> state == old(state).(created := state.created) && !Within(state.created, state.live)
    {
      var todo := state.created.Keys;
      while todo != {}
        invariant todo <= state.created.Keys && state == old(state).(created := state.created)
        invariant forall tx | tx in state.created ::
          tx in old(state).created && state.created[tx] == old(state).created[tx]
        invariant forall tx | tx in old(state).created && tx !in todo ::
          old(state).created[tx] in state.live && (tx in state.created <==> tx in stuck)
      {
        var tx :| tx in todo;
        todo := todo - {tx};
        if state.created[tx] !in state.live {
          return false;
        }
        if tx !in stuck {
          state := state.(created := state.created - {tx});
        }
      }
      assert state.created == Stuck(old(state).created, stuck);
      return true;
    }

    /** Goes through the finished deletion journals; the first whose manifest is gone stops it. */
    method RecoverDeletions(stuck: set<OperationId>) returns (ok: bool)
      requires Valid(state)
      modifies this
      ensures Valid(state) && (ok <==> Within(old(state).deleted, state.readable))
      ensures ok ==> state == old(state).(deleted := Stuck(old(state).deleted, stuck))
      ensures !ok ==> state == old(state).(deleted := state.deleted) && !Within(state.deleted, state.readable)
    {
      var todo := state.deleted.Keys;
      while todo != {}
        invariant todo <= state.deleted.Keys && state == old(state).(deleted := state.deleted)
        invariant forall tx | tx in state.deleted ::
          tx in old(state).deleted && state.deleted[tx] == old(state).deleted[tx]
        invariant forall tx | tx in old(state).deleted && tx !in todo ::
          old(state).deleted[tx] in state.readable && (tx in state.deleted <==> tx in stuck)
      {
        var tx :| tx in todo;
        todo := todo - {tx};
        if state.deleted[tx] !in state.readable {
          return false;
        }
        if tx !in stuck {
          state := state.(deleted := state.deleted - {tx});
        }
      }
      assert state.deleted == Stuck(old(state).deleted, stuck);
      return true;
    }

    /** Every call first recovers. A refusal changes no checkpoint and is final: the next call is refused too. */
    method Serve(call: Call) returns (ok: bool)
      requires Valid(state) && Fresh(state, call.request)
      modifies this
      ensures Valid(state) && (ok <==> Recoverable(old(state)))
      ensures ok ==> state == Served(old(state), call)
      ensures !ok ==> !Recoverable(state) && state.live == old(state).live
    {
      var recovered := RecoverCreations(call.stuck);
      if !recovered {
        return false;
      }
      recovered := RecoverDeletions(call.stuck);
      if !recovered {
        return false;
      }
      ServedIsRecoverable(old(state), call);
      match call.request {
        case Create(id, tx) =>
          state := state.(live := state.live + {id}, readable := state.readable + {id});
          if tx in call.stuck {
            state := state.(created := state.created[tx := id]);
          }
        case Delete(id, tx) =>
          if id in state.live {
            state := state.(live := state.live - {id});
            if tx in call.stuck {
              state := state.(deleted := state.deleted[tx := id]);
            }
          }
        case Sweep(lost) =>
          var garbage := lost - state.live;
          state := state.(readable := state.readable - garbage);
      }
      return true;
    }
  }

  const NEW_REPOSITORY := State({}, {}, map[], map[])

  /** The state after the first `i` calls, all of them served. */
  ghost function After(calls: seq<Call>, i: nat): State
    requires i <= |calls|
  {
    if i == 0 then NEW_REPOSITORY else Served(After(calls, i - 1), calls[i - 1])
  }

  ghost predicate AllFresh(calls: seq<Call>) {
    forall i | 0 <= i < |calls| :: Fresh(After(calls, i), calls[i].request)
  }

  ghost predicate HarmlessAt(calls: seq<Call>, i: nat)
    requires i < |calls|
  {
    Harmless(After(calls, i), calls[i])
  }

  /** From a new repository some call is refused exactly when an earlier one was not harmless. */
  method ServeAll(calls: seq<Call>) returns (refused: bool, last: State)
    requires AllFresh(calls)
    ensures refused <==> exists i :: 0 <= i < |calls| - 1 && !HarmlessAt(calls, i)
    ensures !refused ==> last == After(calls, |calls|)
  {
    hide Harmless, Served, Valid, Recoverable, Fresh;
    var repository := new Repository();
    refused := false;
    for i := 0 to |calls|
      invariant fresh(repository) && repository.state == After(calls, i) && Valid(repository.state)
      invariant i == 0 ==> Recoverable(repository.state)
      invariant i > 0 ==> (Recoverable(repository.state) <==> HarmlessAt(calls, i - 1))
      invariant forall k | 0 <= k < i - 1 :: HarmlessAt(calls, k)
    {
      ghost var before := repository.state;
      assert Fresh(After(calls, i), calls[i].request);
      var ok := repository.Serve(calls[i]);
      if !ok {
        assert !HarmlessAt(calls, i - 1);
        return true, repository.state;
      }
      ServedIsRecoverable(before, calls[i]);
      assert HarmlessAt(calls, i) <==> Recoverable(repository.state);
    }
    return false, repository.state;
  }

  // ---------------------------------------------------------------- what the calls leave

  predicate Creates(call: Call, id: SnapshotId) {
    call.request.Create? && call.request.id == id
  }

  predicate Deletes(call: Call, id: SnapshotId) {
    call.request.Delete? && call.request.id == id
  }

  /** The journal of operation `tx` could not be removed by call `i`, nor by any of the first `n` after it. */
  predicate StuckSince(calls: seq<Call>, i: nat, n: nat, tx: OperationId)
    requires n <= |calls|
  {
    forall k | i <= k < n :: tx in calls[k].stuck
  }

  predicate Spared(calls: seq<Call>, i: nat, n: nat, id: SnapshotId)
    requires n <= |calls|
  {
    forall k | i <= k < n :: !Deletes(calls[k], id)
  }

  /** The published snapshots are those created and not deleted since. */
  lemma {:induction false} LiveIsCreatedNotDeleted(calls: seq<Call>, n: nat, id: SnapshotId)
    requires n <= |calls|
    ensures id in After(calls, n).live <==>
      exists i :: 0 <= i < n && Creates(calls[i], id) && Spared(calls, i + 1, n, id)
  {
    if n > 0 {
      LiveIsCreatedNotDeleted(calls, n - 1, id);
      if i :| 0 <= i < n - 1 && Creates(calls[i], id) && Spared(calls, i + 1, n - 1, id) {
        assert !Deletes(calls[n - 1], id) ==> Spared(calls, i + 1, n, id);
      }
      if Creates(calls[n - 1], id) {
        assert Spared(calls, n - 1 + 1, n, id);
      }
      if i :| 0 <= i < n && Creates(calls[i], id) && Spared(calls, i + 1, n, id) {
        assert i < n - 1 ==> Spared(calls, i + 1, n - 1, id);
      }
    }
  }

  /** The journal of this operation on this snapshot is there. */
  predicate Has(journals: Journals, tx: OperationId, id: SnapshotId) {
    tx in journals && journals[tx] == id
  }

  lemma JournalsAfterOne(s: State, call: Call, tx: OperationId, id: SnapshotId)
    requires Fresh(s, call.request)
    ensures Has(Served(s, call).created, tx, id) <==>
      tx in call.stuck && (Has(s.created, tx, id) || call.request == Create(id, tx))
    ensures Has(Served(s, call).deleted, tx, id) <==>
      tx in call.stuck && (Has(s.deleted, tx, id) || (call.request == Delete(id, tx) && id in s.live))
  {
  }

  /** Call `i` creates this snapshot, and its journal was stuck ever since. */
  predicate CreatedAndStuck(calls: seq<Call>, i: nat, n: nat, tx: OperationId, id: SnapshotId)
    requires n <= |calls|
  {
    i < n && calls[i].request == Create(id, tx) && StuckSince(calls, i, n, tx)
  }

  /** Call `i` deletes this published snapshot, and its journal was stuck ever since. */
  ghost predicate DeletedAndStuck(calls: seq<Call>, i: nat, n: nat, tx: OperationId, id: SnapshotId)
    requires n <= |calls|
  {
    i < n && calls[i].request == Delete(id, tx) && id in After(calls, i).live && StuckSince(calls, i, n, tx)
  }

  /** The creation journals lying about are those that no call since could remove. */
  lemma {:induction false} CreatedIsStuck(calls: seq<Call>, n: nat, tx: OperationId, id: SnapshotId)
    requires n <= |calls| && AllFresh(calls)
    ensures Has(After(calls, n).created, tx, id) <==> exists i: nat :: CreatedAndStuck(calls, i, n, tx, id)
  {
    hide Served, Fresh;
    if n > 0 {
      CreatedIsStuck(calls, n - 1, tx, id);
      JournalsAfterOne(After(calls, n - 1), calls[n - 1], tx, id);
      forall i: nat
        ensures CreatedAndStuck(calls, i, n, tx, id) <==>
          tx in calls[n - 1].stuck
          && (CreatedAndStuck(calls, i, n - 1, tx, id) || (i == n - 1 && calls[i].request == Create(id, tx)))
      {
      }
      assert calls[n - 1].request == Create(id, tx) && tx in calls[n - 1].stuck ==>
        CreatedAndStuck(calls, n - 1, n, tx, id);
    }
  }

  ghost predicate DeletionStuck(calls: seq<Call>, n: nat, tx: OperationId, id: SnapshotId)
    requires n <= |calls|
  {
    exists i: nat :: DeletedAndStuck(calls, i, n, tx, id)
  }

  lemma DeletedOneLater(calls: seq<Call>, n: nat, tx: OperationId, id: SnapshotId)
    requires 0 < n <= |calls|
    ensures DeletionStuck(calls, n, tx, id) <==>
      tx in calls[n - 1].stuck
      && (DeletionStuck(calls, n - 1, tx, id)
          || (calls[n - 1].request == Delete(id, tx) && id in After(calls, n - 1).live))
  {
    hide After;
    var before: nat := n - 1;
    if DeletionStuck(calls, n, tx, id) {
      var i: nat :| DeletedAndStuck(calls, i, n, tx, id);
      assert i < before ==> DeletedAndStuck(calls, i, before, tx, id);
    }
    if tx in calls[before].stuck {
      if DeletionStuck(calls, before, tx, id) {
        var i: nat :| DeletedAndStuck(calls, i, before, tx, id);
        assert DeletedAndStuck(calls, i, n, tx, id);
      }
      if calls[before].request == Delete(id, tx) && id in After(calls, before).live {
        assert DeletedAndStuck(calls, before, n, tx, id);
      }
    }
  }

  /** The same for the journals of deletions that found their snapshot. */
  lemma {:induction false} DeletedIsStuck(calls: seq<Call>, n: nat, tx: OperationId, id: SnapshotId)
    requires n <= |calls| && AllFresh(calls)
    ensures Has(After(calls, n).deleted, tx, id) <==> DeletionStuck(calls, n, tx, id)
  {
    hide Served, Fresh;
    if n > 0 {
      DeletedIsStuck(calls, n - 1, tx, id);
      JournalsAfterOne(After(calls, n - 1), calls[n - 1], tx, id);
      DeletedOneLater(calls, n, tx, id);
    }
  }

  /** Call `k` removes the manifest of `id`, which no published snapshot protects. */
  ghost predicate Sweeps(calls: seq<Call>, k: nat, id: SnapshotId)
    requires k < |calls|
  {
    calls[k].request.Sweep? && id in calls[k].request.lost && id !in After(calls, k).live
  }

  ghost predicate Unswept(calls: seq<Call>, i: nat, n: nat, id: SnapshotId)
    requires n <= |calls|
  {
    forall k | i <= k < n :: !Sweeps(calls, k, id)
  }

  /** The complete manifests are those of snapshots created and not swept away since, published or not. */
  lemma {:induction false} ReadableIsUnswept(calls: seq<Call>, n: nat, id: SnapshotId)
    requires n <= |calls|
    ensures id in After(calls, n).readable <==>
      exists i :: 0 <= i < n && Creates(calls[i], id) && Unswept(calls, i + 1, n, id)
  {
    if n > 0 {
      ReadableIsUnswept(calls, n - 1, id);
      if i :| 0 <= i < n - 1 && Creates(calls[i], id) && Unswept(calls, i + 1, n - 1, id) {
        assert !Sweeps(calls, n - 1, id) ==> Unswept(calls, i + 1, n, id);
      }
      if Creates(calls[n - 1], id) {
        assert Unswept(calls, n - 1 + 1, n, id);
      }
      if i :| 0 <= i < n && Creates(calls[i], id) && Unswept(calls, i + 1, n, id) {
        assert i < n - 1 ==> Unswept(calls, i + 1, n - 1, id);
      }
    }
  }
}
