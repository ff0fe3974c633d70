/**
 Mark and sweep over the repository (maintenance.rs). Analysis marks what the live snapshots
 lead to and lists everything else; applying the plan removes the candidates one by one and
 may stop at any of them.
 */
module StorageGc {
  import opened Outcomes
  import opened Manifests
  import opened Snapshots
  import opened ManifestShape
  import opened ManifestValidation
  import opened ReferenceWalk

  /** What the plan id stands for: the inventory head and every candidate. */
  datatype PlanKey = PlanKey(inventoryHead: nat, deadObjects: map<Digest, nat>, deadChunks: set<ManifestRef>) {
    function Count(): nat {
      |deadObjects.Keys| + |deadChunks|
    }
  }

  datatype GcPlan = GcPlan(key: PlanKey, hasIntegrityProblems: bool)

  datatype GcError = TargetsChanged | IntegrityProblems | Cancelled | FirstDeletionFailed

  datatype GcResult = GcResult(
    deletedObjects: set<Digest>,
    deletedChunks: set<ManifestRef>,
    completed: bool,
    committedPartially: bool,
    remaining: nat)

  /** The outside world's influence on one sweep. */
  datatype Faults = Faults(cancelled: bool, stopAfter: Option<nat>, afterUnlink: bool, rootReplaced: bool)

  const NO_FAULTS := Faults(false, None, false, false)

  /** Every entry of every fully expanded live manifest is stored with the size it expects. */
  ghost predicate EntriesPresent(store: Store, objects: map<Digest, nat>, snapshots: seq<SnapshotRoot>) {
    forall e | e in Expansion(store, AllRoots(snapshots), MAX_LEVELS) :: Present(objects, e)
  }

  /** The chunks the live manifests meet when they are expanded without any sharing. */
  ghost function LiveChunks(store: Store, snapshots: seq<SnapshotRoot>): set<ManifestRef> {
    set c | c in AllVisits(store, AllRoots(snapshots), MAX_LEVELS)
  }

  /** The objects the fully expanded live manifests name. */
  ghost function LiveObjects(store: Store, snapshots: seq<SnapshotRoot>): set<Digest> {
    set e | e in Expansion(store, AllRoots(snapshots), MAX_LEVELS) :: e.objectId
  }

  /** Nothing stands in the way of a sweep. */
  ghost predicate Sound(store: Store, rules: ManifestRules, objects: map<Digest, nat>, misplaced: bool,
                        snapshots: seq<SnapshotRoot>, parses: string -> bool)
  {
    !misplaced && AllMark(store, rules, snapshots, parses) && EntriesPresent(store, objects, snapshots)
  }

  ghost predicate NoGarbage(store: Store, objects: map<Digest, nat>, snapshots: seq<SnapshotRoot>) {
    store.Keys == LiveChunks(store, snapshots) && objects.Keys == LiveObjects(store, snapshots)
  }

  ghost function GarbageCount(store: Store, objects: map<Digest, nat>, snapshots: seq<SnapshotRoot>): nat {
    |store.Keys - LiveChunks(store, snapshots)| + |objects.Keys - LiveObjects(store, snapshots)|
  }

  /** The plan that lists exactly the garbage. */
  ghost function GarbageKey(store: Store, objects: map<Digest, nat>, inventoryHead: nat,
                            snapshots: seq<SnapshotRoot>): PlanKey
  {
    PlanKey(inventoryHead, objects - LiveObjects(store, snapshots), store.Keys - LiveChunks(store, snapshots))
  }

  // ---------------------------------------------------------------- how far a sweep gets

  /** Whether a sweep of `total` candidates ends before its regular end. */
  predicate Halts(total: nat, faults: Faults) {
    faults.rootReplaced || (faults.stopAfter.Some? && faults.stopAfter.value < total)
  }

  /** How many of `total` candidates are gone when the sweep ends. */
  function Unlinked(total: nat, faults: Faults): nat {
    if faults.stopAfter.None? || total <= faults.stopAfter.value then total
    else faults.stopAfter.value + (if faults.afterUnlink then 1 else 0)
  }

  /** Something failed before anything was gone. */
  predicate NothingGone(total: nat, faults: Faults) {
    Halts(total, faults) && Unlinked(total, faults) == 0
  }

  /** What is to be unlinked: what is gone, and what is still there. */
  ghost predicate Parts<T>(all: set<T>, gone: set<T>, pending: set<T>) {
    pending !! gone && pending + gone == all
  }

  lemma NoneYet<T>(all: set<T>)
    ensures Parts(all, {}, all)
  {
  }

  lemma OneMoreGone<T>(all: set<T>, gone: set<T>, pending: set<T>, one: T)
    requires Parts(all, gone, pending) && one in pending
    ensures Parts(all, gone + {one}, pending - {one}) && gone + {one} <= all && one !in gone && |gone| < |all|
  {
    SubsetSize(gone, all);
    assert one in all - gone;
  }

  lemma AllGone<T>(all: set<T>, gone: set<T>)
    requires Parts(all, gone, {})
    ensures gone == all
  {
  }

  // ---------------------------------------------------------------- marking

  lemma GraphIsLive(store: Store, snapshots: seq<SnapshotRoot>, marked: set<ManifestRef>)
    requires AllExpand(store, AllRoots(snapshots), MAX_LEVELS) && Graph(store, AllRoots(snapshots), marked)
    ensures marked == LiveChunks(store, snapshots)
    ensures EntriesOf(store, marked) == set e | e in Expansion(store, AllRoots(snapshots), MAX_LEVELS)
  {
    VisitsAreTheGraph(store, AllRoots(snapshots), MAX_LEVELS, marked);
    EntriesAreExpansion(store, AllRoots(snapshots));
  }

  class Repository {
    /** Manifest chunk files by kind and id. */
    var store: Store
    /** Loose object files in their proper places, with their sizes on disk. */
    var objects: map<Digest, nat>
    /** Whether some file lies where no object or chunk belongs. */
    var misplaced: bool
    var inventoryHead: nat

    constructor (store: Store, objects: map<Digest, nat>, misplaced: bool, inventoryHead: nat)
      ensures this.store == store && this.objects == objects && this.misplaced == misplaced
        && this.inventoryHead == inventoryHead
    {
      this.store, this.objects, this.misplaced, this.inventoryHead := store, objects, misplaced, inventoryHead;
    }

    /** The repository is sound, and the expected plan is exactly its garbage. */
    ghost predicate MayApply(expected: PlanKey, snapshots: seq<SnapshotRoot>, rules: ManifestRules,
                             parses: string -> bool)
      reads this
    {
      && Sound(store, rules, objects, misplaced, snapshots, parses)
      && expected == GarbageKey(store, objects, inventoryHead, snapshots)
    }

    /** Marks one snapshot; nothing is marked before its manifest is accepted and it belongs here. */
    method InspectAndMark(s: SnapshotRoot, validator: ManifestValidator, collector: ReferenceCollector,
                          ghost before: seq<SnapshotRoot>, ghost clean: bool)
      returns (ok: bool)
      requires validator.Sound(store) && collector.Valid()
      requires clean ==> Marked(validator, collector, before)
      modifies validator, collector
      ensures validator.Sound(store) && collector.Valid()
      ensures clean ==> (ok <==> Joins(store, validator.rules, before, s, collector.parses))
      ensures clean && ok ==> collector.Complete(store, AllRoots(before) + RootsOf(s))
      ensures clean && ok ==>
        validator.cache.Keys == SharedCache(store, validator.rules, before) + ChunksOf(store, RootsOf(s))
    {
      hide Acceptable, Genuine, Fits, ChunksOf, SharedCache, PathsParse, validator.Sound, collector.Valid,
           collector.Complete;
      ValidatedMeans(store, validator.rules, before, s);
      if s.Damaged? {
        return false;
      }
      var validated := validator.ValidateManifest(store, s);
      if validated.Err? || !s.ownProject {
        return false;
      }
      ok := collector.Walk(store, s.manifest, AllRoots(before), clean);
    }

    /** What marking `before` without any failure leaves. */
    ghost predicate Marked(validator: ManifestValidator, collector: ReferenceCollector, before: seq<SnapshotRoot>)
      reads this`store, validator, collector
    {
      collector.Complete(store, AllRoots(before)) && validator.cache.Keys == SharedCache(store, validator.rules, before)
    }

    /** Marks the next snapshot, then drops a cache that is full. */
    method MarkNext(snapshots: seq<SnapshotRoot>, i: nat, validator: ManifestValidator, collector: ReferenceCollector,
                    ghost clean: bool)
      returns (ok: bool)
      requires i < |snapshots| && validator.Sound(store) && collector.Valid()
      requires clean ==> Marked(validator, collector, snapshots[..i])
      modifies validator, collector
      ensures validator.Sound(store) && collector.Valid()
      ensures clean ==> (ok <==> Joins(store, validator.rules, snapshots[..i], snapshots[i], collector.parses))
      ensures clean && ok ==> Marked(validator, collector, snapshots[..i + 1])
    {
      hide Joins, collector.Valid, collector.Complete, validator.Sound;
      ok := InspectAndMark(snapshots[i], validator, collector, snapshots[..i], clean);
      validator.DropIfFull(store);
      OneMore(snapshots, i);
      OneMoreCached(store, validator.rules, snapshots, i);
    }

    lemma WhatIsMarked(validator: ManifestValidator, collector: ReferenceCollector, snapshots: seq<SnapshotRoot>)
      requires Marked(validator, collector, snapshots)
      ensures collector.Complete(store, AllRoots(snapshots))
    {
    }

    lemma NothingMarked(validator: ManifestValidator, collector: ReferenceCollector)
      requires validator.cache == map[] && collector.visited == {} && collector.seen == {}
      ensures Marked(validator, collector, [])
    {
      NoRootsNoGraph(store);
    }

    /** Marks all snapshots with one visited set and one validator; remembers whether any failed. */
    method MarkAll(snapshots: seq<SnapshotRoot>, rules: ManifestRules, parses: string -> bool)
      returns (collector: ReferenceCollector, skipped: bool)
      ensures fresh(collector) && collector.Valid()
      ensures !skipped ==> collector.Complete(store, AllRoots(snapshots))
      ensures skipped <==> !AllMark(store, rules, snapshots, parses)
    {
      hide AllMark, Joins, Marked, collector.Valid, collector.Complete;
      collector := new ReferenceCollector(parses);
      var validator := new ManifestValidator(rules);
      skipped := false;
      NothingToMark(store, rules, parses);
      NothingMarked(validator, collector);
      assert snapshots[..0] == [];
      for i := 0 to |snapshots|
        invariant fresh(collector) && collector.Valid() && collector.parses == parses
        invariant fresh(validator) && validator.Sound(store) && validator.rules == rules
        invariant !skipped ==> Marked(validator, collector, snapshots[..i])
        invariant skipped <==> !AllMark(store, rules, snapshots[..i], parses)
      {
        OneMoreMarks(store, rules, snapshots, parses, i);
        var marked := MarkNext(snapshots, i, validator, collector, !skipped);
        if !marked {
          skipped := true;
        }
      }
      assert snapshots[..|snapshots|] == snapshots;
      if !skipped {
        WhatIsMarked(validator, collector, snapshots);
      }
    }

    /** Compares the first expected size of every referenced object with its file. */
    method CheckReferences(referenced: map<Digest, nat>) returns (ok: bool)
      ensures ok <==> forall o | o in referenced :: o in objects && objects[o] == referenced[o]
    {
      ok := true;
      var remaining := referenced.Keys;
      while remaining != {}
        invariant remaining <= referenced.Keys
        invariant ok <==> forall o | o in referenced.Keys - remaining :: o in objects && objects[o] == referenced[o]
      {
        var o :| o in remaining;
        remaining := remaining - {o};
        if o !in objects || objects[o] != referenced[o] {
          ok := false;
        }
      }
    }

    /**
     The plan reports problems exactly when the repository is not sound by the naive reading of
     every manifest; without problems its candidates are exactly what no expansion meets.
     */
    method Analyze(snapshots: seq<SnapshotRoot>, rules: ManifestRules, parses: string -> bool) returns (plan: GcPlan)
      ensures plan.hasIntegrityProblems <==> !Sound(store, rules, objects, misplaced, snapshots, parses)
      ensures plan.key.inventoryHead == inventoryHead
      ensures plan.key.deadChunks <= store.Keys && plan.key.deadObjects.Keys <= objects.Keys
      ensures !plan.hasIntegrityProblems ==>
        LiveChunks(store, snapshots) <= store.Keys && LiveObjects(store, snapshots) <= objects.Keys
      ensures !plan.hasIntegrityProblems ==> plan.key.deadChunks == store.Keys - LiveChunks(store, snapshots)
      ensures !plan.hasIntegrityProblems ==> plan.key.deadObjects == objects - LiveObjects(store, snapshots)
    {
      var collector, skipped := MarkAll(snapshots, rules, parses);
      var matching := CheckReferences(collector.referenced);
      var problems := skipped || !matching || collector.conflicts != [] || misplaced;
      plan := GcPlan(
        PlanKey(inventoryHead, objects - collector.referenced.Keys, store.Keys - collector.visited),
        problems);
      ReferencesDecide(collector.seen, collector.referenced, collector.conflicts, objects);
      if !skipped {
        MarkedExpand(store, rules, snapshots, parses);
        GraphIsLive(store, snapshots, collector.visited);
        LiveIsStored(store, snapshots, collector.visited);
        SameObjects(store, snapshots, collector.seen);
        assert EntriesPresent(store, objects, snapshots) <==> forall e | e in collector.seen :: Present(objects, e);
      }
    }

    /** Unlinks up to `stopAfter` objects; `afterUnlink` says whether the one that fails is gone too. */
    method SweepObjects(dead: set<Digest>, stopAfter: Option<nat>, afterUnlink: bool)
      returns (deleted: set<Digest>, ok: bool)
      requires dead <= objects.Keys
      modifies this`objects
      ensures deleted <= dead && objects == old(objects) - deleted
      ensures ok <==> stopAfter.None? || |dead| <= stopAfter.value
      ensures ok ==> deleted == dead
      ensures !ok ==> |deleted| == stopAfter.value + (if afterUnlink then 1 else 0)
    {
      hide Parts;
      var pending := dead;
      deleted := {};
      NoneYet(dead);
      while pending != {}
        invariant Parts(dead, deleted, pending)
        invariant objects == old(objects) - deleted
        invariant stopAfter.Some? ==> |deleted| <= stopAfter.value
        decreases pending
      {
        var o :| o in pending;
        OneMoreGone(dead, deleted, pending, o);
        if stopAfter == Some(|deleted|) {
          if afterUnlink {
            objects, deleted := objects - {o}, deleted + {o};
          }
          return deleted, false;
        }
        objects, deleted, pending := objects - {o}, deleted + {o}, pending - {o};
      }
      AllGone(dead, deleted);
      return deleted, true;
    }

    method SweepChunks(dead: set<ManifestRef>, stopAfter: Option<nat>, afterUnlink: bool)
      returns (deleted: set<ManifestRef>, ok: bool)
      requires dead <= store.Keys
      modifies this`store
      ensures deleted <= dead && store == old(store) - deleted
      ensures ok <==> stopAfter.None? || |dead| <= stopAfter.value
      ensures ok ==> deleted == dead
      ensures !ok ==> |deleted| == stopAfter.value + (if afterUnlink then 1 else 0)
    {
      hide Parts;
      var pending := dead;
      deleted := {};
      NoneYet(dead);
      while pending != {}
        invariant Parts(dead, deleted, pending)
        invariant store == old(store) - deleted
        invariant stopAfter.Some? ==> |deleted| <= stopAfter.value
        decreases pending
      {
        var c :| c in pending;
        OneMoreGone(dead, deleted, pending, c);
        if stopAfter == Some(|deleted|) {
          if afterUnlink {
            store, deleted := store - {c}, deleted + {c};
          }
          return deleted, false;
        }
        store, deleted, pending := store - {c}, deleted + {c}, pending - {c};
      }
      AllGone(dead, deleted);
      return deleted, true;
    }

    /** Objects, then chunks, then a last look at the root of the repository. */
    method SweepBoth(key: PlanKey, faults: Faults)
      returns (deletedObjects: set<Digest>, deletedChunks: set<ManifestRef>, completed: bool)
      requires key.deadObjects.Keys <= objects.Keys && key.deadChunks <= store.Keys
      modifies this`store, this`objects
      ensures deletedObjects <= key.deadObjects.Keys && deletedChunks <= key.deadChunks
      ensures objects == old(objects) - deletedObjects && store == old(store) - deletedChunks
      ensures completed ==> deletedObjects == key.deadObjects.Keys && deletedChunks == key.deadChunks
      ensures completed <==> !Halts(key.Count(), faults)
      ensures |deletedObjects| + |deletedChunks| == Unlinked(key.Count(), faults)
      ensures deletedChunks != {} ==> deletedObjects == key.deadObjects.Keys
    {
      hide Halts, Unlinked, NothingGone, LeftOver;
      deletedObjects, completed := SweepObjects(key.deadObjects.Keys, faults.stopAfter, faults.afterUnlink);
      deletedChunks := {};
      if !completed {
        HowFarObjects(key, |deletedObjects|, faults);
        return;
      }
      var left := LeftOver(faults.stopAfter, |deletedObjects|);
      deletedChunks, completed := SweepChunks(key.deadChunks, left, faults.afterUnlink);
      HowFarChunks(key, |deletedChunks|, completed, faults);
      completed := completed && !faults.rootReplaced;
    }

    /** None when the very first deletion failed and nothing is gone. */
    method Sweep(key: PlanKey, faults: Faults) returns (swept: Option<GcResult>)
      requires key.deadObjects.Keys <= objects.Keys && key.deadChunks <= store.Keys
      modifies this`store, this`objects
      ensures swept.None? ==> store == old(store) && objects == old(objects)
      ensures swept.None? <==> NothingGone(key.Count(), faults)
      ensures swept.Some? ==> SweptPart(swept.value, key.deadObjects.Keys, key.deadChunks)
      ensures swept.Some? ==> GotAsFarAs(swept.value, key, faults)
      ensures swept.Some? ==>
        objects == old(objects) - swept.value.deletedObjects && store == old(store) - swept.value.deletedChunks
    {
      hide SweptPart, Halts, Unlinked, GotAsFarAs;
      ghost var store0, objects0 := store, objects;
      var deletedObjects, deletedChunks, completed := SweepBoth(key, faults);
      if !completed && deletedObjects == {} && deletedChunks == {} {
        RemoveNothing(store0);
        RemoveNothing(objects0);
        return None;
      }
      NothingIsZero(deletedObjects, deletedChunks);
      swept := Some(Report(deletedObjects, deletedChunks, key.deadObjects.Keys, key.deadChunks, completed));
      ReportTells(key, swept.value, faults);
    }

    /** Sweeps a plan that lists exactly the garbage of a sound repository. */
    method SweepPlan(key: PlanKey, snapshots: seq<SnapshotRoot>, rules: ManifestRules, parses: string -> bool,
                     faults: Faults)
      returns (swept: Option<GcResult>)
      requires Sound(store, rules, objects, misplaced, snapshots, parses)
      requires LiveChunks(store, snapshots) <= store.Keys && LiveObjects(store, snapshots) <= objects.Keys
      requires key.deadChunks == store.Keys - LiveChunks(store, snapshots)
      requires key.deadObjects.Keys == objects.Keys - LiveObjects(store, snapshots)
      modifies this`store, this`objects
      ensures swept.None? ==> store == old(store) && objects == old(objects)
      ensures swept.None? <==> NothingGone(key.Count(), faults)
      ensures swept.Some? ==> GotAsFarAs(swept.value, key, faults)
      ensures swept.Some? ==> SweptPart(swept.value, key.deadObjects.Keys, key.deadChunks)
      ensures swept.Some? ==>
        objects == old(objects) - swept.value.deletedObjects && store == old(store) - swept.value.deletedChunks
      ensures swept.Some? ==> Sound(store, rules, objects, misplaced, snapshots, parses)
      ensures swept.Some? ==>
        Expansion(store, AllRoots(snapshots), MAX_LEVELS) == old(Expansion(store, AllRoots(snapshots), MAX_LEVELS))
      ensures swept.Some? && swept.value.completed ==> NoGarbage(store, objects, snapshots)
      ensures swept.Some? ==> swept.value.remaining == GarbageCount(store, objects, snapshots)
    {
      hide LiveChunks, LiveObjects, Sound, Expansion, AllRoots, NoGarbage, GarbageCount, SweptPart, GotAsFarAs,
           NothingGone;
      ghost var store0, objects0 := store, objects;
      swept := Sweep(key, faults);
      if swept.Some? {
        AfterReport(store0, rules, objects0, misplaced, snapshots, parses, key, swept.value);
      }
    }

    /**
     Objects go first, then chunks. A sweep begins exactly when the repository is sound, the plan
     is its garbage and nobody cancels, and it gets as far as the faults let it. An error means
     nothing was deleted; otherwise every live manifest expands as before and every object it names
     is still there, wherever the sweep stopped.
     */
    method Apply(snapshots: seq<SnapshotRoot>, rules: ManifestRules, parses: string -> bool, expected: PlanKey,
                 faults: Faults)
      returns (res: Result<GcResult, GcError>)
      modifies this`store, this`objects
      ensures res.Err? ==> store == old(store) && objects == old(objects)
      ensures res == Err(IntegrityProblems) ==> old(!Sound(store, rules, objects, misplaced, snapshots, parses))
      ensures res == Err(TargetsChanged) ==> !old(MayApply(expected, snapshots, rules, parses))
      ensures res == Err(Cancelled) ==> old(MayApply(expected, snapshots, rules, parses)) && faults.cancelled
      ensures res == Err(FirstDeletionFailed) ==>
        && old(MayApply(expected, snapshots, rules, parses)) && !faults.cancelled
        && NothingGone(expected.Count(), faults)
      ensures old(MayApply(expected, snapshots, rules, parses)) && !faults.cancelled ==>
        if NothingGone(expected.Count(), faults) then res.Err?
        else res.Ok? && GotAsFarAs(res.value, expected, faults)
      ensures res.Ok? ==> old(MayApply(expected, snapshots, rules, parses)) && !faults.cancelled
      ensures res.Ok? ==> Sound(store, rules, objects, misplaced, snapshots, parses)
      ensures res.Ok? ==>
        Expansion(store, AllRoots(snapshots), MAX_LEVELS) == old(Expansion(store, AllRoots(snapshots), MAX_LEVELS))
      ensures res.Ok? ==>
        res.value.deletedObjects <= expected.deadObjects.Keys && res.value.deletedChunks <= expected.deadChunks
      ensures res.Ok? ==>
        objects == old(objects) - res.value.deletedObjects && store == old(store) - res.value.deletedChunks
      ensures res.Ok? && res.value.completed ==> NoGarbage(store, objects, snapshots)
      ensures res.Ok? ==> res.value.committedPartially == !res.value.completed
      ensures res.Ok? ==> res.value.remaining == GarbageCount(store, objects, snapshots)
    {
      hide LiveChunks, LiveObjects, Sound, Expansion, AllRoots, NoGarbage, GarbageCount, Halts, Unlinked, GotAsFarAs,
           NothingGone;
      var plan := Analyze(snapshots, rules, parses);
      if expected != plan.key {
        return Err(TargetsChanged);
      }
      if plan.hasIntegrityProblems {
        return Err(IntegrityProblems);
      }
      if faults.cancelled {
        return Err(Cancelled);
      }
      var swept := SweepPlan(plan.key, snapshots, rules, parses, faults);
      return if swept.Some? then Ok(swept.value) else Err(FirstDeletionFailed);
    }
  }

  /** The sweep deleted as much as the faults let it, objects first. */
  ghost predicate GotAsFarAs(result: GcResult, key: PlanKey, faults: Faults) {
    && (result.completed <==> !Halts(key.Count(), faults))
    && |result.deletedObjects| + |result.deletedChunks| == Unlinked(key.Count(), faults)
    && (result.deletedChunks != {} ==> result.deletedObjects == key.deadObjects.Keys)
  }

  ghost predicate SweptPart(result: GcResult, deadObjects: set<Digest>, deadChunks: set<ManifestRef>) {
    && result.deletedObjects <= deadObjects && result.deletedChunks <= deadChunks
    && (result.completed ==> result.deletedObjects == deadObjects && result.deletedChunks == deadChunks)
    && result.committedPartially == !result.completed
    && result.remaining == |deadObjects| - |result.deletedObjects| + |deadChunks| - |result.deletedChunks|
  }

  function Report(deletedObjects: set<Digest>, deletedChunks: set<ManifestRef>, deadObjects: set<Digest>,
                  deadChunks: set<ManifestRef>, completed: bool):
      (result: GcResult)
    requires deletedObjects <= deadObjects && deletedChunks <= deadChunks
    requires completed ==> deletedObjects == deadObjects && deletedChunks == deadChunks
    requires !completed ==> deletedObjects != {} || deletedChunks != {}
    ensures SweptPart(result, deadObjects, deadChunks)
    ensures result.deletedObjects == deletedObjects && result.deletedChunks == deletedChunks
      && result.completed == completed
  {
    SubsetSize(deletedObjects, deadObjects);
    SubsetSize(deletedChunks, deadChunks);
    var deletedCount := |deletedObjects| + |deletedChunks|;
    GcResult(
      deletedObjects, deletedChunks, completed, !completed && deletedCount > 0,
      if completed then 0 else |deadObjects| + |deadChunks| - deletedCount)
  }

  function LeftOver(limit: Option<nat>, used: nat): Option<nat> {
    if limit.None? then None else Some(if used <= limit.value then limit.value - used else 0)
  }

  /** The sweep ended among the objects. */
  lemma HowFarObjects(key: PlanKey, deleted: nat, faults: Faults)
    requires faults.stopAfter.Some? && faults.stopAfter.value < |key.deadObjects.Keys|
    requires deleted == faults.stopAfter.value + (if faults.afterUnlink then 1 else 0)
    ensures Halts(key.Count(), faults) && Unlinked(key.Count(), faults) == deleted
    ensures NothingGone(key.Count(), faults) <==> deleted == 0
  {
  }

  /** The objects are gone, and the sweep ended among the chunks or not at all. */
  lemma HowFarChunks(key: PlanKey, deleted: nat, completed: bool, faults: Faults)
    requires var left := LeftOver(faults.stopAfter, |key.deadObjects.Keys|);
      && (completed <==> left.None? || |key.deadChunks| <= left.value)
      && (completed ==> deleted == |key.deadChunks|)
      && (!completed ==> deleted == left.value + (if faults.afterUnlink then 1 else 0))
    requires faults.stopAfter.None? || |key.deadObjects.Keys| <= faults.stopAfter.value
    ensures Halts(key.Count(), faults) <==> !completed || faults.rootReplaced
    ensures Unlinked(key.Count(), faults) == |key.deadObjects.Keys| + deleted
    ensures NothingGone(key.Count(), faults) <==>
      (!completed || faults.rootReplaced) && |key.deadObjects.Keys| + deleted == 0
  {
  }

  lemma RemoveNothing<K, V>(m: map<K, V>)
    ensures m - {} == m
  {
  }

  lemma NothingIsZero(objects: set<Digest>, chunks: set<ManifestRef>)
    ensures |objects| + |chunks| == 0 <==> objects == {} && chunks == {}
  {
  }

  lemma ReportTells(key: PlanKey, result: GcResult, faults: Faults)
    requires result.completed <==> !Halts(key.Count(), faults)
    requires |result.deletedObjects| + |result.deletedChunks| == Unlinked(key.Count(), faults)
    requires result.deletedChunks != {} ==> result.deletedObjects == key.deadObjects.Keys
    ensures GotAsFarAs(result, key, faults)
  {
  }

  lemma SubsetSize<T>(a: set<T>, b: set<T>)
    requires a <= b
    ensures |b - a| == |b| - |a|
  {
    assert b == a + (b - a);
  }

  lemma LeftInMap<K, V>(m: map<K, V>, live: set<K>, deleted: set<K>)
    requires live <= m.Keys && deleted <= m.Keys - live
    ensures |(m - deleted).Keys - live| == |m.Keys - live| - |deleted|
    ensures deleted == m.Keys - live ==> (m - deleted).Keys == live
  {
    assert (m - deleted).Keys - live == (m.Keys - live) - deleted;
    SubsetSize(deleted, m.Keys - live);
  }

  lemma LiveIsStored(store: Store, snapshots: seq<SnapshotRoot>, marked: set<ManifestRef>)
    requires Graph(store, AllRoots(snapshots), marked)
    ensures marked <= store.Keys
  {
  }

  lemma SameObjects(store: Store, snapshots: seq<SnapshotRoot>, seen: set<Entry>)
    requires seen == set e | e in Expansion(store, AllRoots(snapshots), MAX_LEVELS)
    ensures LiveObjects(store, snapshots) == set e | e in seen :: e.objectId
  {
  }

  // ---------------------------------------------------------------- sweeping

  ghost predicate Agree(a: Store, b: Store, s: set<ManifestRef>) {
    forall c | c in s ::
      Readable(a, c) && Readable(b, c) && Children(b, c) == Children(a, c) && Entries(b, c) == Entries(a, c)
  }

  /** Stores that agree on a closed set expand everything in it alike. */
  lemma {:induction false} AgreeingVisits(a: Store, b: Store, s: set<ManifestRef>, rs: seq<ManifestRef>, depth: nat)
    requires Closed(a, s) && Agree(a, b, s)
    requires forall r | r in rs :: r in s
    ensures AllVisits(b, rs, depth) == AllVisits(a, rs, depth)
    decreases depth, |rs|
  {
    hide Readable, Children;
    if rs != [] {
      AgreeingVisits(a, b, s, rs[1..], depth);
      if depth > 0 {
        assert rs[0] in s;
        AgreeingVisits(a, b, s, Children(a, rs[0]), depth - 1);
        assert Visits(b, rs[0], depth) == Visits(a, rs[0], depth);
      }
    }
  }

  lemma {:induction false} AgreeingExpand(a: Store, b: Store, s: set<ManifestRef>, r: ManifestRef, depth: nat)
    requires Closed(a, s) && Agree(a, b, s) && r in s
    ensures Expands(a, r, depth) ==> Expands(b, r, depth)
    decreases depth
  {
    hide Readable, Children;
    if Expands(a, r, depth) {
      forall k | k in Children(b, r)
        ensures Expands(b, k, depth - 1)
      {
        AgreeingExpand(a, b, s, k, depth - 1);
      }
    }
  }

  lemma {:induction false} AgreeingFlatten(a: Store, b: Store, s: set<ManifestRef>, visits: seq<ManifestRef>)
    requires Agree(a, b, s) && forall c | c in visits :: c in s
    ensures Flatten(b, visits) == Flatten(a, visits)
  {
    if visits != [] {
      AgreeingFlatten(a, b, s, visits[1..]);
    }
  }

  lemma AgreeingExpansions(a: Store, b: Store, s: set<ManifestRef>, rs: seq<ManifestRef>)
    requires Closed(a, s) && forall c | c in s :: c in b && b[c] == a[c]
    requires forall r | r in rs :: r in s
    ensures AllVisits(b, rs, MAX_LEVELS) == AllVisits(a, rs, MAX_LEVELS)
    ensures Expansion(b, rs, MAX_LEVELS) == Expansion(a, rs, MAX_LEVELS)
    ensures AllExpand(a, rs, MAX_LEVELS) ==> AllExpand(b, rs, MAX_LEVELS)
  {
    assert Agree(a, b, s);
    AgreeingVisits(a, b, s, rs, MAX_LEVELS);
    forall r | r in rs
      ensures Expands(a, r, MAX_LEVELS) ==> Expands(b, r, MAX_LEVELS)
    {
      AgreeingExpand(a, b, s, r, MAX_LEVELS);
    }
    VisitsWithin(a, rs, MAX_LEVELS, s);
    AgreeingFlatten(a, b, s, AllVisits(a, rs, MAX_LEVELS));
  }

  /** A snapshot whose chunks agree in both stores validates alike, and takes the same room. */
  lemma AgreeingAcceptance(a: Store, b: Store, rules: ManifestRules, live: set<ManifestRef>, s: SnapshotRoot,
                           parses: string -> bool)
    requires Closed(a, live) && forall c | c in live :: c in b && b[c] == a[c]
    requires forall r | r in RootsOf(s) :: r in live
    ensures ChunksOf(b, RootsOf(s)) == ChunksOf(a, RootsOf(s))
    ensures SnapshotHealthy(a, rules, s, parses) ==> SnapshotHealthy(b, rules, s, parses)
  {
    hide AllExpand, Readable, Children, Entries, Expansion, AllVisits, Fits;
    var rs := RootsOf(s);
    AgreeingExpansions(a, b, live, rs);
    VisitsWithin(a, rs, MAX_LEVELS, live);
    forall c | c in AllVisits(a, rs, MAX_LEVELS) && ChunkFine(a, rules, c)
      ensures ChunkFine(b, rules, c)
    {
      AgreeingShape(a, b, rules, live, c);
    }
  }

  lemma AgreeingShape(a: Store, b: Store, rules: ManifestRules, live: set<ManifestRef>, c: ManifestRef)
    requires Closed(a, live) && forall x | x in live :: x in b && b[x] == a[x]
    requires c in live && ChunkFine(a, rules, c)
    ensures ChunkFine(b, rules, c)
  {
    hide AllExpand, AllVisits, Expansion, Below, LinkShape, ClosingShape, LeafShape, EdgesIncrease;
    assert Readable(a, c) && Readable(b, c);
    if c.kind.Node? {
      SameBelow(a, b, live, c);
      forall i | 0 <= i < |a[c].links|
        ensures LinkFine(b, rules, a[c].prefix, a[c].links[i])
      {
        assert Children(a, c)[i] in Children(a, c);
        SameBelow(a, b, live, a[c].links[i].child);
      }
    }
  }

  lemma SameBelow(a: Store, b: Store, live: set<ManifestRef>, c: ManifestRef)
    requires Closed(a, live) && forall x | x in live :: x in b && b[x] == a[x]
    requires c in live
    ensures Below(b, [c]) == Below(a, [c])
  {
    AgreeingExpansions(a, b, live, [c]);
  }

  lemma {:induction false} AgreeingOverflow(a: Store, b: Store, rules: ManifestRules, snapshots: seq<SnapshotRoot>)
    requires forall s | s in snapshots :: ChunksOf(b, RootsOf(s)) == ChunksOf(a, RootsOf(s))
    ensures SharedCache(b, rules, snapshots) == SharedCache(a, rules, snapshots)
    ensures NoOverflow(b, rules, snapshots) <==> NoOverflow(a, rules, snapshots)
  {
    hide ChunksOf, Fits, Retained;
    if snapshots != [] {
      var last := |snapshots| - 1;
      assert snapshots[last] in snapshots;
      AgreeingOverflow(a, b, rules, snapshots[..last]);
    }
  }

  lemma MarkedExpand(store: Store, rules: ManifestRules, snapshots: seq<SnapshotRoot>, parses: string -> bool)
    requires AllMark(store, rules, snapshots, parses)
    ensures AllExpand(store, AllRoots(snapshots), MAX_LEVELS)
  {
    hide Acceptable;
    RootsExpand(store, rules, snapshots);
  }

  /** Everything marked is marked again once chunks outside the live ones are gone. */
  lemma StillMarked(a: Store, b: Store, rules: ManifestRules, live: set<ManifestRef>, snapshots: seq<SnapshotRoot>,
                    parses: string -> bool)
    requires Closed(a, live) && forall c | c in live :: c in b && b[c] == a[c]
    requires forall r | r in AllRoots(snapshots) :: r in live
    requires AllMark(a, rules, snapshots, parses)
    ensures AllMark(b, rules, snapshots, parses)
  {
    hide SnapshotHealthy, ChunksOf, NoOverflow, Closed;
    forall s | s in snapshots
      ensures SnapshotHealthy(b, rules, s, parses) && ChunksOf(b, RootsOf(s)) == ChunksOf(a, RootsOf(s))
    {
      SnapshotRootsIncluded(snapshots, s);
      AgreeingAcceptance(a, b, rules, live, s, parses);
    }
    AgreeingOverflow(a, b, rules, snapshots);
  }

  /** Removing any part of the garbage leaves a sound repository with the same live manifests. */
  lemma SweepKeepsLive(store: Store, rules: ManifestRules, objects: map<Digest, nat>, misplaced: bool,
                       snapshots: seq<SnapshotRoot>, parses: string -> bool, deadObjects: set<Digest>,
                       deadChunks: set<ManifestRef>)
    requires Sound(store, rules, objects, misplaced, snapshots, parses)
    requires deadObjects !! LiveObjects(store, snapshots) && deadChunks !! LiveChunks(store, snapshots)
    ensures Sound(store - deadChunks, rules, objects - deadObjects, misplaced, snapshots, parses)
    ensures Expansion(store - deadChunks, AllRoots(snapshots), MAX_LEVELS)
      == Expansion(store, AllRoots(snapshots), MAX_LEVELS)
    ensures LiveChunks(store - deadChunks, snapshots) == LiveChunks(store, snapshots)
    ensures LiveObjects(store - deadChunks, snapshots) == LiveObjects(store, snapshots)
  {
    hide AllMark;
    var live, roots, swept := LiveChunks(store, snapshots), AllRoots(snapshots), store - deadChunks;
    MarkedExpand(store, rules, snapshots, parses);
    VisitsClosed(store, roots, MAX_LEVELS);
    AgreeingExpansions(store, swept, live, roots);
    StillMarked(store, swept, rules, live, snapshots, parses);
    forall e | e in Expansion(swept, roots, MAX_LEVELS)
      ensures Present(objects - deadObjects, e)
    {
      assert Present(objects, e) && e.objectId in LiveObjects(store, snapshots);
    }
  }

  lemma AfterSweep(store: Store, rules: ManifestRules, objects: map<Digest, nat>, misplaced: bool,
                   snapshots: seq<SnapshotRoot>, parses: string -> bool, deletedObjects: set<Digest>,
                   deletedChunks: set<ManifestRef>)
    requires Sound(store, rules, objects, misplaced, snapshots, parses)
    requires LiveObjects(store, snapshots) <= objects.Keys
      && deletedObjects <= objects.Keys - LiveObjects(store, snapshots)
    requires LiveChunks(store, snapshots) <= store.Keys && deletedChunks <= store.Keys - LiveChunks(store, snapshots)
    ensures Sound(store - deletedChunks, rules, objects - deletedObjects, misplaced, snapshots, parses)
    ensures Expansion(store - deletedChunks, AllRoots(snapshots), MAX_LEVELS)
      == Expansion(store, AllRoots(snapshots), MAX_LEVELS)
    ensures LiveChunks(store - deletedChunks, snapshots) == LiveChunks(store, snapshots)
    ensures LiveObjects(store - deletedChunks, snapshots) == LiveObjects(store, snapshots)
    ensures GarbageCount(store - deletedChunks, objects - deletedObjects, snapshots)
         == GarbageCount(store, objects, snapshots) - |deletedObjects| - |deletedChunks|
    ensures
      && deletedChunks == store.Keys - LiveChunks(store, snapshots)
      && deletedObjects == objects.Keys - LiveObjects(store, snapshots)
      ==> NoGarbage(store - deletedChunks, objects - deletedObjects, snapshots)
  {
    hide *;
    SweepKeepsLive(store, rules, objects, misplaced, snapshots, parses, deletedObjects, deletedChunks);
    CountGarbage(store, objects, snapshots, deletedObjects, deletedChunks);
  }

  lemma AfterReport(store: Store, rules: ManifestRules, objects: map<Digest, nat>, misplaced: bool,
                    snapshots: seq<SnapshotRoot>, parses: string -> bool, key: PlanKey, result: GcResult)
    requires Sound(store, rules, objects, misplaced, snapshots, parses)
    requires LiveChunks(store, snapshots) <= store.Keys && LiveObjects(store, snapshots) <= objects.Keys
    requires key.deadChunks == store.Keys - LiveChunks(store, snapshots)
    requires key.deadObjects.Keys == objects.Keys - LiveObjects(store, snapshots)
    requires SweptPart(result, key.deadObjects.Keys, key.deadChunks)
    ensures Sound(store - result.deletedChunks, rules, objects - result.deletedObjects, misplaced, snapshots, parses)
    ensures Expansion(store - result.deletedChunks, AllRoots(snapshots), MAX_LEVELS)
      == Expansion(store, AllRoots(snapshots), MAX_LEVELS)
    ensures result.completed ==> NoGarbage(store - result.deletedChunks, objects - result.deletedObjects, snapshots)
    ensures result.remaining == GarbageCount(store - result.deletedChunks, objects - result.deletedObjects, snapshots)
  {
    hide Sound, LiveChunks, LiveObjects, Expansion, AllRoots, NoGarbage;
    AfterSweep(store, rules, objects, misplaced, snapshots, parses, result.deletedObjects, result.deletedChunks);
    assert GarbageCount(store, objects, snapshots) == |key.deadChunks| + |key.deadObjects.Keys|;
  }

  lemma CountGarbage(store: Store, objects: map<Digest, nat>, snapshots: seq<SnapshotRoot>, deletedObjects: set<Digest>,
                     deletedChunks: set<ManifestRef>)
    requires LiveObjects(store, snapshots) <= objects.Keys
      && deletedObjects <= objects.Keys - LiveObjects(store, snapshots)
    requires LiveChunks(store, snapshots) <= store.Keys && deletedChunks <= store.Keys - LiveChunks(store, snapshots)
    requires LiveChunks(store - deletedChunks, snapshots) == LiveChunks(store, snapshots)
    requires LiveObjects(store - deletedChunks, snapshots) == LiveObjects(store, snapshots)
    ensures GarbageCount(store - deletedChunks, objects - deletedObjects, snapshots)
         == GarbageCount(store, objects, snapshots) - |deletedObjects| - |deletedChunks|
    ensures
      && deletedChunks == store.Keys - LiveChunks(store, snapshots)
      && deletedObjects == objects.Keys - LiveObjects(store, snapshots)
      ==> NoGarbage(store - deletedChunks, objects - deletedObjects, snapshots)
  {
    hide LiveChunks, LiveObjects;
    LeftInMap(store, LiveChunks(store, snapshots), deletedChunks);
    LeftInMap(objects, LiveObjects(store, snapshots), deletedObjects);
  }

  /** Analysing again after a completed sweep finds no candidate and no problem. */
  method SweepThenAnalyze(repository: Repository, snapshots: seq<SnapshotRoot>, rules: ManifestRules,
                          parses: string -> bool, expected: PlanKey, faults: Faults)
    returns (res: Result<GcResult, GcError>, plan: GcPlan)
    modifies repository`store, repository`objects
    ensures old(repository.MayApply(expected, snapshots, rules, parses)) && faults == NO_FAULTS ==>
      res.Ok? && res.value.completed
    ensures res.Ok? ==> !plan.hasIntegrityProblems
    ensures res.Ok? && res.value.completed ==> plan.key == PlanKey(repository.inventoryHead, map[], {})
  {
    res := repository.Apply(snapshots, rules, parses, expected, faults);
    plan := repository.Analyze(snapshots, rules, parses);
  }
}
