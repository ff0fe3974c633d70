/**
 What deletions whose last journal write failed can lead to (checkpoint.rs). The code only warns
 about that failure, in recovery as elsewhere, so the journal stays open and every later recovery
 replays it: `refs/latest` is set again to what the deletion chose when it began. This module says
 exactly which calls let a replay move the reference. Calls are whole here; stops inside them are
 the subject of CheckpointProtocol, and further needs of recovery that of LeftoverJournals.
 */
module UnfinishedDeletions {
  import opened Outcomes
  import opened Inventory
  import CP = CheckpointProtocol

  /** The open deletions and the latest checkpoint each of them chose. */
  type Unfinished = map<OperationId, Option<SnapshotId>>

  /** What the repository shows between two calls. */
  datatype State = State(now: CP.Logical, open: Unfinished)

  /** A request and the deletions whose last journal write fails while it is served. */
  datatype Call = Call(request: CP.Request, stuck: set<OperationId>)

  /** Journals are recovered in the order of their names. */
  ghost function Last(txs: set<OperationId>): (last: OperationId)
    requires txs != {}
    ensures last in txs && forall tx | tx in txs :: tx <= last
  {
    var tx :| tx in txs;
    if txs == {tx} then tx
    else
      var other := Last(txs - {tx});
      assert forall t | t in txs :: t == tx || t in txs - {tx};
      if other < tx then tx else other
  }

  /** Every replay sets the reference, so the last one decides. */
  ghost function Replayed(s: State): CP.Logical {
    CP.Logical(s.now.head, if s.open == map[] then s.now.latest else s.open[Last(s.open.Keys)])
  }

  function Remaining(open: Unfinished, stuck: set<OperationId>): Unfinished {
    map tx | tx in open && tx in stuck :: open[tx]
  }

  /** Recovery would leave the reference where it is. */
  ghost predicate Faithful(s: State) {
    Replayed(s) == s.now
  }

  function Projected(l: CP.Logical, id: SnapshotId,
                     parent: Option<SnapshotId>): Result<Option<SnapshotId>, InventoryError>
  {
    LatestAfterRemoval(l.head, id, l.latest, parent)
  }

  /** A creation brings a new id, a deletion a new journal name. */
  ghost predicate Fresh(s: State, request: CP.Request) {
    match request
    case Create(id, _) => id !in Members(s.now.head) && forall tx | tx in s.open :: s.open[tx] != Some(id)
    case Delete(_, _, tx) => tx !in s.open
    case Recover => true
  }

  /**
   The effect of one call: recovery, then the request. A creation insists on a sound reference, a
   deletion on one it can project.
   */
  ghost function Served(s: State, call: Call): State {
    var l, rest := Replayed(s), Remaining(s.open, call.stuck);
    match call.request
    case Create(id, tx) => if CP.Sound(l) then State(CP.WithCheckpoint(l, id, tx), rest) else State(l, rest)
    case Delete(id, parent, tx) =>
      var latest := Projected(l, id, parent);
      if latest.Err? then State(l, rest)
      else State(CP.WithoutCheckpoint(l, id, parent, tx), if tx in call.stuck then rest[tx := latest.value] else rest)
    case Recover => State(l, rest)
  }

  /**
   A caller can check this before the call, from the open journals and the reference: no creation
   beside a journal that stays open, and otherwise the last journal that stays open chose the
   reference this call will leave.
   */
  ghost predicate Harmless(s: State, call: Call) {
    var rest := Remaining(s.open, call.stuck);
    rest == map[] ||
    var last := Last(rest.Keys);
    match call.request
    case Create(_, _) => false
    case Delete(id, parent, tx) =>
      if id in Members(s.now.head) then (tx in call.stuck && last < tx)
        || Projected(s.now, id, parent) == Ok(rest[last])
      else rest[last] == s.now.latest
    case Recover => rest[last] == s.now.latest
  }

  lemma LastIs(txs: set<OperationId>, last: OperationId)
    requires last in txs && forall tx | tx in txs :: tx <= last
    ensures Last(txs) == last
  {
  }

  /** One more journal stays open: the greater name is replayed last. */
  lemma OneMoreOpen(rest: Unfinished, tx: OperationId, latest: Option<SnapshotId>)
    requires tx !in rest
    ensures var open := rest[tx := latest];
      tx in open.Keys && open[Last(open.Keys)] == if rest == map[] || Last(rest.Keys) < tx then latest
        else rest[Last(rest.Keys)]
  {
    var open := rest[tx := latest];
    assert open.Keys == rest.Keys + {tx};
    if rest == map[] {
      LastIs(open.Keys, tx);
    } else {
      LastIs(open.Keys, if Last(rest.Keys) < tx then tx else Last(rest.Keys));
    }
  }

  lemma ProjectionFits(l: CP.Logical, id: SnapshotId, parent: Option<SnapshotId>, tx: OperationId)
    requires CP.Sound(l)
    ensures id in Members(l.head) <==> Projected(l, id, parent).Ok?
    ensures id in Members(l.head) ==>
      && CP.Sound(CP.WithoutCheckpoint(l, id, parent, tx))
      && CP.WithoutCheckpoint(l, id, parent, tx).latest == Projected(l, id, parent).value
  {
    if id in Members(l.head) {
      LatestAfterRemovalFits(l.head, id, l.latest, parent);
    }
  }

  lemma CreationFits(l: CP.Logical, id: SnapshotId, tx: OperationId)
    ensures CP.Sound(CP.WithCheckpoint(l, id, tx)) && CP.WithCheckpoint(l, id, tx).latest == Some(id)
  {
  }

  /** From a faithful state a call has its one effect, and leaves a faithful state exactly when it was harmless. */
  lemma ServedIsFaithful(s: State, call: Call)
    requires Faithful(s) && CP.Sound(s.now) && Fresh(s, call.request)
    ensures CP.Sound(Served(s, call).now) && Served(s, call).now == CP.Served(s.now, call.request)
    ensures Faithful(Served(s, call)) <==> Harmless(s, call)
  {
    hide CP.Sound, CP.WithCheckpoint, CP.WithoutCheckpoint, LatestAfterRemoval;
    var rest, after := Remaining(s.open, call.stuck), Served(s, call);
    if rest != map[] {
      assert Last(rest.Keys) in s.open;
    }
    match call.request
    case Create(id, tx) => CreationFits(s.now, id, tx);
    case Delete(id, parent, tx) =>
      ProjectionFits(s.now, id, parent, tx);
      if id in Members(s.now.head) && tx in call.stuck {
        OneMoreOpen(rest, tx, Projected(s.now, id, parent).value);
      }
    case Recover =>
  }

  /** The reference once the journals in `done` are replayed. */
  ghost function LatestAfter(s: State, done: set<OperationId>): Option<SnapshotId>
    requires done <= s.open.Keys
  {
    if done == {} then s.now.latest else s.open[Last(done)]
  }

  /** The open journals while those in `todo` wait for their replay. */
  ghost function Kept(open: Unfinished, todo: set<OperationId>, stuck: set<OperationId>): Unfinished {
    map tx | tx in open && (tx in todo || tx in stuck) :: open[tx]
  }

  ghost predicate Before(done: set<OperationId>, todo: set<OperationId>) {
    forall t, u | t in done && u in todo :: t < u
  }

  lemma ReplayBegins(s: State, stuck: set<OperationId>)
    ensures LatestAfter(s, {}) == s.now.latest && Kept(s.open, s.open.Keys, stuck) == s.open && Before({}, s.open.Keys)
  {
  }

  lemma ReplayStep(s: State, done: set<OperationId>, todo: set<OperationId>, tx: OperationId, stuck: set<OperationId>)
    requires Before(done, todo) && done + todo == s.open.Keys && tx in todo && IsLeast(todo, tx)
    ensures Before(done + {tx}, todo - {tx}) && (done + {tx}) + (todo - {tx}) == s.open.Keys
    ensures LatestAfter(s, done + {tx}) == s.open[tx]
    ensures tx in Kept(s.open, todo, stuck) && Kept(s.open, todo, stuck)[tx] == s.open[tx]
    ensures Kept(s.open, todo - {tx}, stuck) == if tx in stuck then Kept(s.open, todo, stuck)
      else Kept(s.open, todo, stuck) - {tx}
  {
    LastIs(done + {tx}, tx);
  }

  lemma ReplayEnds(s: State, done: set<OperationId>, stuck: set<OperationId>)
    requires done == s.open.Keys
    ensures Replayed(s) == CP.Logical(s.now.head, LatestAfter(s, done))
      && Kept(s.open, {}, stuck) == Remaining(s.open, stuck)
  {
  }

  class Repository {
    var state: State

    constructor ()
      ensures state == NEW_REPOSITORY
    {
      state := NEW_REPOSITORY;
    }

    /** Replays every open deletion; those whose last write fails again stay open. */
    method ReplayDeletions(stuck: set<OperationId>) returns (moved: bool)
      modifies this
      ensures state == State(Replayed(old(state)), Remaining(old(state).open, stuck))
      ensures moved <==> !Faithful(old(state))
    {
      hide LatestAfter, Kept, Remaining, Replayed, IsLeast, Before;
      ghost var before, done: set<OperationId> := state, {};
      var latest, todo := state.now.latest, state.open.Keys;
      ReplayBegins(before, stuck);
      while todo != {}
        invariant Before(done, todo) && done + todo == before.open.Keys
        invariant state == State(CP.Logical(before.now.head, LatestAfter(before, done)), Kept(before.open, todo, stuck))
        decreases todo
      {
        LeastExists(todo);
        var tx :| tx in todo && IsLeast(todo, tx);
        ReplayStep(before, done, todo, tx, stuck);
        var open := if tx in stuck then state.open else state.open - {tx};
        state := State(state.now.(latest := state.open[tx]), open);
        todo, done := todo - {tx}, done + {tx};
      }
      ReplayEnds(before, done, stuck);
      return state.now.latest != latest;
    }

    /** Every call first recovers. */
    method Serve(call: Call) returns (moved: bool)
      modifies this
      ensures state == Served(old(state), call)
      ensures moved <==> !Faithful(old(state))
    {
      moved := ReplayDeletions(call.stuck);
      var l := state.now;
      match call.request {
        case Create(id, tx) =>
          var members := Members(l.head);
          if (l.latest.Some? && l.latest.value in members) || (l.latest.None? && members == {}) {
            state := state.(now := CP.Logical(Added(l.head, id, tx), Some(id)));
          }
        case Delete(id, parent, tx) =>
          var latest := Projected(l, id, parent);
          if latest.Ok? {
            var open := if tx in call.stuck then state.open[tx := latest.value] else state.open;
            state := State(CP.Logical(Removed(l.head, id, tx), latest.value), open);
          }
        case Recover =>
      }
    }
  }

  predicate IsLeast(txs: set<OperationId>, tx: OperationId) {
    forall t | t in txs :: tx <= t
  }

  lemma {:induction false} LeastExists(txs: set<OperationId>)
    requires txs != {}
    ensures exists tx :: tx in txs && IsLeast(txs, tx)
    decreases txs
  {
    var tx :| tx in txs;
    var rest := txs - {tx};
    if rest == {} {
      assert txs == {tx} && IsLeast(txs, tx);
    } else {
      LeastExists(rest);
      var other :| other in rest && IsLeast(rest, other);
      var least := if tx < other then tx else other;
      assert forall t | t in txs :: t == tx || t in rest;
      assert least in txs && IsLeast(txs, least);
    }
  }

  const NEW_REPOSITORY := State(CP.Logical(Initial, None), map[])

  /** The state after the first `i` calls. */
  ghost function After(calls: seq<Call>, i: nat): State
    requires i <= |calls|
  {
    if i == 0 then NEW_REPOSITORY else Served(After(calls, i - 1), calls[i - 1])
  }

  ghost predicate AllFresh(calls: seq<Call>) {
    forall i | 0 <= i < |calls| :: Fresh(After(calls, i), calls[i].request)
  }

  ghost predicate HarmlessAt(calls: seq<Call>, i: nat)
    requires i < |calls|
  {
    Harmless(After(calls, i), calls[i])
  }

  ghost predicate HasItsEffect(calls: seq<Call>, i: nat)
    requires i < |calls|
  {
    After(calls, i + 1).now == CP.Served(After(calls, i).now, calls[i].request)
  }

  /**
   From a new repository some recovery moves the reference exactly when an earlier call was not
   harmless; until then every call has its one effect and the reference is sound.
   */
  method ServeAll(calls: seq<Call>) returns (moved: bool, last: State)
    requires AllFresh(calls)
    ensures moved <==> exists i :: 0 <= i < |calls| - 1 && !HarmlessAt(calls, i)
    ensures !moved ==>
      last == After(calls, |calls|) && CP.Sound(last.now) && forall i | 0 <= i < |calls| :: HasItsEffect(calls, i)
  {
    hide Harmless, Served, Fresh, Faithful, CP.Sound, CP.Served;
    var repository := new Repository();
    moved := false;
    NewIsFaithful();
    for i := 0 to |calls|
      invariant fresh(repository) && repository.state == After(calls, i) && CP.Sound(repository.state.now)
      invariant i == 0 ==> Faithful(repository.state)
      invariant i > 0 ==> (Faithful(repository.state) <==> HarmlessAt(calls, i - 1))
      invariant forall k | 0 <= k < i - 1 :: HarmlessAt(calls, k)
      invariant forall k | 0 <= k < i :: HasItsEffect(calls, k)
    {
      ghost var before := repository.state;
      assert Fresh(After(calls, i), calls[i].request);
      moved := repository.Serve(calls[i]);
      if moved {
        assert !HarmlessAt(calls, i - 1);
        return true, repository.state;
      }
      ServedIsFaithful(before, calls[i]);
      assert HarmlessAt(calls, i) <==> Faithful(repository.state);
      assert HasItsEffect(calls, i);
    }
    return false, repository.state;
  }

  lemma NewIsFaithful()
    ensures Faithful(NEW_REPOSITORY) && CP.Sound(NEW_REPOSITORY.now)
  {
  }

  // ---------------------------------------------------------------- the reference vanishes

  /** Delete the only checkpoint and leave the deletion open; create another beside it. */
  function OnlyOneDeleted(a: SnapshotId, b: SnapshotId, tx: OperationId): seq<Call> {
    [Call(CP.Create(a, tx + 1), {}), Call(CP.Delete(a, None, tx), {tx}), Call(CP.Create(b, tx + 2), {tx})]
  }

  /**
   After the three calls the inventory and the reference name the new checkpoint. The next
   recovery takes the reference away, and a creation that begins with it is refused.
   */
  lemma ReferenceVanishes(a: SnapshotId, b: SnapshotId, tx: OperationId)
    requires a != b
    ensures var calls := OnlyOneDeleted(a, b, tx);
      && AllFresh(calls) && HarmlessAt(calls, 0) && HarmlessAt(calls, 1) && !HarmlessAt(calls, 2)
      && Members(After(calls, 3).now.head) == {b} && After(calls, 3).now.latest == Some(b)
      && Replayed(After(calls, 3)).latest == None
      && forall c, t, stuck :: Served(After(calls, 3), Call(CP.Create(c, t), stuck)).now == Replayed(After(calls, 3))
  {
    var calls := OnlyOneDeleted(a, b, tx);
    var first, second, third := After(calls, 1), After(calls, 2), After(calls, 3);
    assert After(calls, 0) == NEW_REPOSITORY && CP.Sound(NEW_REPOSITORY.now);
    assert Remaining(map[], {}) == map[];
    assert first == State(CP.Logical(Added(Initial, a, tx + 1), Some(a)), map[]);
    assert Members(first.now.head) == {a};
    assert Remaining(first.open, {tx}) == map[];
    assert second == State(CP.Logical(Removed(first.now.head, a, tx), None), map[tx := None]);
    assert second.open.Keys == {tx} && Last({tx}) == tx;
    assert Remaining(second.open, {tx}) == second.open;
    assert CP.Sound(Replayed(second));
    assert third == State(CP.Logical(Added(second.now.head, b, tx + 2), Some(b)), second.open);
    assert !CP.Sound(Replayed(third));
  }
}
