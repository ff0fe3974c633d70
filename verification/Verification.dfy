/**
 Verifying a project or one checkpoint (verify.rs). A project is verified with one visited set
 for all snapshots, one remembered size per object and a capped error list; a checkpoint is
 loaded as a list of files, which is then gone through. Loading checks more than the manifest, so
 the two verdicts can differ: `VerdictsAgree` says exactly when.
 */
module Verification {
  import opened Outcomes
  import opened Manifests
  import opened Snapshots
  import opened ManifestShape
  import opened ManifestValidation
  import opened ReferenceWalk
  import opened SnapshotLoading

  const MAX_VERIFICATION_ERRORS: nat := 1024

  /** An object file: its length and the digest of its bytes. */
  datatype ObjectFile = ObjectFile(size: nat, hash: Digest)

  datatype Problem =
    | BadConfig
    | BadPhysicalInventory
    | BadSnapshot(position: nat)
    | WrongProject(position: nat)
    | ConflictingSize(objectId: Digest)
    | BadObject(objectId: Digest)
    | BadPath(path: string)
    | BadLatest
    | StoppedCollecting

  /** Outcomes of the checks that do not look at manifests. */
  datatype RepositoryChecks = RepositoryChecks(config: bool, physicalInventory: bool, latest: bool)

  predicate ChecksPass(checks: RepositoryChecks, full: bool) {
    checks.config && (full ==> checks.physicalInventory) && checks.latest
  }

  /** The object check: length always, content only when `full`. */
  ghost predicate ObjectIntact(files: map<Digest, ObjectFile>, full: bool, o: Digest, size: nat) {
    o in files && files[o].size == size && (full ==> files[o].hash == o)
  }

  ghost predicate EntryPasses(files: map<Digest, ObjectFile>, full: bool, e: Entry) {
    ObjectIntact(files, full, e.objectId, e.size)
  }

  /** The naive verdict on the manifest of one snapshot and the objects it refers to. */
  ghost predicate SnapshotPasses(store: Store, rules: ManifestRules, files: map<Digest, ObjectFile>, s: SnapshotRoot,
                                 parses: string -> bool, full: bool)
  {
    && SnapshotHealthy(store, rules, s, parses)
    && forall e | e in Expansion(store, RootsOf(s), MAX_LEVELS) :: EntryPasses(files, full, e)
  }

  /** The naive verdict on one checkpoint, which must also load. */
  ghost predicate CheckpointPasses(store: Store, rules: ManifestRules, files: map<Digest, ObjectFile>, s: SnapshotRoot,
                                   parses: string -> bool, dated: Instant -> bool, full: bool)
  {
    SnapshotPasses(store, rules, files, s, parses, full) && Loadable(store, rules, s, dated)
  }

  /** What the verification of a project does not see: a directory far above a path, or a time out of range. */
  ghost predicate HiddenFault(store: Store, rules: ManifestRules, s: SnapshotRoot, dated: Instant -> bool) {
    HasFarAncestor(KeysBelow(store, rules, RootsOf(s))) || !AllDated(Below(store, RootsOf(s)), dated)
  }

  /** The objects that pass, with the one size they pass for. */
  ghost function Intact(files: map<Digest, ObjectFile>, full: bool): map<Digest, nat> {
    map o | o in files && ObjectIntact(files, full, o, files[o].size) :: files[o].size
  }

  /** What the error list shows of all problems found. */
  function Capped(found: seq<Problem>): (errors: seq<Problem>)
    ensures errors == [] <==> found == []
    ensures |errors| <= MAX_VERIFICATION_ERRORS + 1
  {
    if |found| <= MAX_VERIFICATION_ERRORS then found else found[..MAX_VERIFICATION_ERRORS] + [StoppedCollecting]
  }

  class VerificationResult {
    var errors: seq<Problem>
    ghost var found: seq<Problem>

    constructor ()
      ensures errors == [] && found == []
    {
      errors, found := [], [];
    }

    ghost predicate Valid()
      reads this
    {
      errors == Capped(found)
    }

    method Push(problem: Problem)
      requires Valid()
      modifies this
      ensures Valid() && found == old(found) + [problem] && errors != []
    {
      if |errors| < MAX_VERIFICATION_ERRORS {
        errors := errors + [problem];
      } else if |errors| == MAX_VERIFICATION_ERRORS {
        errors := errors + [StoppedCollecting];
      }
      found := found + [problem];
    }

    method PushConflicts(objects: seq<Digest>)
      requires Valid()
      modifies this
      ensures Valid() && (errors == [] <==> old(errors) == [] && objects == [])
      ensures old(found) <= found
        && forall p | p in found[|old(found)|..] :: p.ConflictingSize? && p.objectId in objects
    {
      for i := 0 to |objects|
        invariant Valid() && (errors == [] <==> old(errors) == [] && i == 0)
        invariant old(found) <= found
        invariant forall p | p in found[|old(found)|..] :: p.ConflictingSize? && p.objectId in objects
      {
        Push(ConflictingSize(objects[i]));
      }
    }
  }

  // ---------------------------------------------------------------- project

  /** What collecting `before` without any failure leaves. */
  ghost predicate Collected(store: Store, validator: ManifestValidator, collector: ReferenceCollector,
                            before: seq<SnapshotRoot>)
    reads validator, collector
  {
    collector.Complete(store, AllRoots(before)) && validator.cache.Keys == SharedCache(store, validator.rules, before)
  }

  /** What may be said of the snapshot at this position. */
  predicate OfSnapshot(p: Problem, s: SnapshotRoot, position: nat) {
    match p
    case BadSnapshot(i) => i == position
    case WrongProject(i) => i == position && s.Header? && !s.ownProject
    case ConflictingSize(_) => true
    case _ => false
  }

  ghost predicate AllOfSnapshot(problems: seq<Problem>, s: SnapshotRoot, position: nat) {
    forall p | p in problems :: OfSnapshot(p, s, position)
  }

  /** What may be said of the first `n` snapshots. */
  ghost predicate OfSnapshots(problems: seq<Problem>, snapshots: seq<SnapshotRoot>, n: nat) {
    forall p | p in problems :: exists i :: 0 <= i < n && i < |snapshots| && OfSnapshot(p, snapshots[i], i)
  }

  lemma OneMoreSnapshot(before: seq<Problem>, added: seq<Problem>, snapshots: seq<SnapshotRoot>, n: nat)
    requires n < |snapshots| && OfSnapshots(before, snapshots, n) && AllOfSnapshot(added, snapshots[n], n)
    ensures OfSnapshots(before + added, snapshots, n + 1)
  {
    forall p | p in before + added
      ensures exists i :: 0 <= i < n + 1 && i < |snapshots| && OfSnapshot(p, snapshots[i], i)
    {
      if p in before {
        var i :| 0 <= i < n && i < |snapshots| && OfSnapshot(p, snapshots[i], i);
        assert OfSnapshot(p, snapshots[i], i);
      } else {
        assert OfSnapshot(p, snapshots[n], n);
      }
    }
  }

  lemma AddedTogether(first: seq<Problem>, before: seq<Problem>, after: seq<Problem>, s: SnapshotRoot, position: nat)
    requires first <= before <= after
    requires AllOfSnapshot(before[|first|..], s, position) && AllOfSnapshot(after[|before|..], s, position)
    ensures first <= after && AllOfSnapshot(after[|first|..], s, position)
  {
    assert after[|first|..] == before[|first|..] + after[|before|..];
  }

  lemma NoneAdded(problems: seq<Problem>, s: SnapshotRoot, position: nat)
    ensures AllOfSnapshot(problems[|problems|..], s, position)
  {
  }

  lemma OneAdded(before: seq<Problem>, p: Problem, s: SnapshotRoot, position: nat)
    requires OfSnapshot(p, s, position)
    ensures AllOfSnapshot((before + [p])[|before|..], s, position)
  {
  }

  lemma ConflictsAdded(added: seq<Problem>, s: SnapshotRoot, position: nat)
    requires forall p | p in added :: p.ConflictingSize?
    ensures AllOfSnapshot(added, s, position)
  {
  }

  /** Collects one snapshot; a foreign project is reported but its manifest is still walked. */
  method CollectSnapshot(store: Store, s: SnapshotRoot, position: nat, validator: ManifestValidator,
                         collector: ReferenceCollector, result: VerificationResult, ghost before: seq<SnapshotRoot>,
                         ghost clean: bool)
    requires result.Valid() && validator.Sound(store) && collector.Valid()
      && (clean ==> Collected(store, validator, collector, before))
    modifies validator, collector, result
    ensures result.Valid() && validator.Sound(store) && collector.Valid()
      && old(collector.conflicts) <= collector.conflicts
    ensures result.errors == [] ==> old(result.errors) == [] && collector.conflicts == old(collector.conflicts)
    ensures old(result.found) <= result.found && AllOfSnapshot(result.found[|old(result.found)|..], s, position)
    ensures clean && old(result.errors) == [] && collector.conflicts == old(collector.conflicts) ==>
      (result.errors == [] <==> Joins(store, validator.rules, before, s, collector.parses))
    ensures clean && Joins(store, validator.rules, before, s, collector.parses) ==>
      && collector.Complete(store, AllRoots(before) + RootsOf(s))
      && validator.cache.Keys == SharedCache(store, validator.rules, before) + ChunksOf(store, RootsOf(s))
  {
    hide Acceptable, Genuine, Fits, ChunksOf, SharedCache, PathsParse, validator.Sound, collector.Valid,
         collector.Complete, AllOfSnapshot;
    ValidatedMeans(store, validator.rules, before, s);
    ghost var found0 := result.found;
    OneAdded(found0, BadSnapshot(position), s, position);
    if s.Damaged? {
      result.Push(BadSnapshot(position));
      return;
    }
    var validated := validator.ValidateManifest(store, s);
    if validated.Err? {
      result.Push(BadSnapshot(position));
      return;
    }
    NoneAdded(found0, s, position);
    if !s.ownProject {
      result.Push(WrongProject(position));
      OneAdded(found0, WrongProject(position), s, position);
    }
    var known := |collector.conflicts|;
    var walked := collector.Walk(store, s.manifest, AllRoots(before), clean);
    ghost var found1 := result.found;
    result.PushConflicts(collector.conflicts[known..]);
    ConflictsAdded(result.found[|found1|..], s, position);
    AddedTogether(found0, found1, result.found, s, position);
    if !walked {
      ghost var found2 := result.found;
      result.Push(BadSnapshot(position));
      OneAdded(found2, BadSnapshot(position), s, position);
      AddedTogether(found0, found2, result.found, s, position);
    }
  }

  /** Collects the next snapshot, then drops a cache that is full. */
  method CollectNext(store: Store, snapshots: seq<SnapshotRoot>, i: nat, validator: ManifestValidator,
                     collector: ReferenceCollector, result: VerificationResult, ghost clean: bool)
    requires i < |snapshots| && result.Valid() && validator.Sound(store) && collector.Valid()
    requires clean ==> Collected(store, validator, collector, snapshots[..i])
    modifies validator, collector, result
    ensures result.Valid() && validator.Sound(store) && collector.Valid()
    ensures result.errors == [] ==> old(result.errors) == []
    ensures old(result.found) <= result.found && AllOfSnapshot(result.found[|old(result.found)|..], snapshots[i], i)
    ensures collector.conflicts == [] ==> old(collector.conflicts) == []
    ensures clean && old(result.errors) == [] && collector.conflicts == [] ==>
      (result.errors == [] <==> Joins(store, validator.rules, snapshots[..i], snapshots[i], collector.parses))
    ensures result.errors == [] && old(collector.conflicts) == [] ==> collector.conflicts == []
    ensures clean && Joins(store, validator.rules, snapshots[..i], snapshots[i], collector.parses) ==>
      Collected(store, validator, collector, snapshots[..i + 1])
  {
    hide collector.Valid, collector.Complete, Joins, validator.Sound;
    CollectSnapshot(store, snapshots[i], i, validator, collector, result, snapshots[..i], clean);
    validator.DropIfFull(store);
    OneMore(snapshots, i);
    OneMoreCached(store, validator.rules, snapshots, i);
  }

  /** Collects all snapshots with one validator, whose cache is dropped when it is full. */
  method CollectAll(store: Store, rules: ManifestRules, snapshots: seq<SnapshotRoot>, collector: ReferenceCollector,
                    result: VerificationResult)
    requires result.Valid() && collector.Valid() && collector.visited == {} && collector.seen == {}
      && collector.conflicts == []
    modifies collector, result
    ensures result.Valid() && collector.Valid()
    ensures old(result.found) <= result.found
      && OfSnapshots(result.found[|old(result.found)|..], snapshots, |snapshots|)
    ensures AllMark(store, rules, snapshots, collector.parses) ==> collector.Complete(store, AllRoots(snapshots))
    ensures result.errors == []
      <==> old(result.errors) == [] && AllMark(store, rules, snapshots, collector.parses) && collector.conflicts == []
  {
    hide collector.Valid, collector.Complete, result.Valid, AllMark, Joins, Collected, OfSnapshots, AllOfSnapshot;
    ghost var found0, added := result.found, [];
    NoProblems(snapshots);
    var validator := new ManifestValidator(rules);
    ghost var clean := true;
    NothingToMark(store, rules, collector.parses);
    NothingCollected(store, validator, collector);
    assert snapshots[..0] == [];
    for i := 0 to |snapshots|
      invariant result.Valid() && collector.Valid() && fresh(validator) && validator.Sound(store)
        && validator.rules == rules
      invariant result.found == found0 + added && OfSnapshots(added, snapshots, i)
      invariant clean == AllMark(store, rules, snapshots[..i], collector.parses)
      invariant clean ==> Collected(store, validator, collector, snapshots[..i])
      invariant result.errors == [] <==> old(result.errors) == [] && clean && collector.conflicts == []
    {
      ghost var found := result.found;
      CollectNext(store, snapshots, i, validator, collector, result, clean);
      OneMoreSnapshot(added, result.found[|found|..], snapshots, i);
      added := added + result.found[|found|..];
      OneMoreMarks(store, rules, snapshots, collector.parses, i);
      clean := clean && Joins(store, rules, snapshots[..i], snapshots[i], collector.parses);
    }
    assert snapshots[..|snapshots|] == snapshots;
    if clean {
      WhatIsCollected(store, validator, collector, snapshots);
    }
  }

  lemma NoProblems(snapshots: seq<SnapshotRoot>)
    ensures OfSnapshots([], snapshots, 0)
  {
  }

  lemma WhatIsCollected(store: Store, validator: ManifestValidator, collector: ReferenceCollector,
                        snapshots: seq<SnapshotRoot>)
    requires Collected(store, validator, collector, snapshots)
    ensures collector.Complete(store, AllRoots(snapshots))
  {
  }

  lemma NothingCollected(store: Store, validator: ManifestValidator, collector: ReferenceCollector)
    requires validator.cache == map[] && collector.visited == {} && collector.seen == {}
    ensures Collected(store, validator, collector, [])
  {
    NoRootsNoGraph(store);
  }

  /** Looks at one object file: a full check insists on the very file, a quick one on its length. */
  method VerifyObject(files: map<Digest, ObjectFile>, full: bool, o: Digest, size: nat) returns (problem: bool)
    ensures full ==> (problem <==> !(o in files && files[o] == ObjectFile(size, o)))
    ensures !full ==> (problem <==> !(o in files && files[o].size == size))
  {
    if o !in files {
      return true;
    }
    if files[o].size != size {
      return true;
    }
    if !full {
      return false;
    }
    return files[o].hash != o;
  }

  /** These are the referenced objects whose files are not what is expected of them. */
  ghost predicate BadOnes(problems: seq<Problem>, files: map<Digest, ObjectFile>, full: bool,
                          referenced: map<Digest, nat>)
  {
    && (forall p | p in problems ::
          p.BadObject? && p.objectId in referenced && !ObjectIntact(files, full, p.objectId, referenced[p.objectId]))
    && (forall o | o in referenced && !ObjectIntact(files, full, o, referenced[o]) :: BadObject(o) in problems)
  }

  lemma OneMoreBad(problems: seq<Problem>, files: map<Digest, ObjectFile>, full: bool, checked: map<Digest, nat>,
                   o: Digest, size: nat)
    requires BadOnes(problems, files, full, checked) && o !in checked
    ensures BadOnes(if ObjectIntact(files, full, o, size) then problems else problems + [BadObject(o)], files, full,
                    checked[o := size])
  {
    hide ObjectIntact;
    assert forall p | p in problems :: p in problems + [BadObject(o)];
    assert (problems + [BadObject(o)])[|problems|] == BadObject(o);
  }

  /** Checks every referenced object once, with the first size expected of it. */
  method VerifyReferencedObjects(files: map<Digest, ObjectFile>, full: bool, referenced: map<Digest, nat>,
                                 result: VerificationResult)
    requires result.Valid()
    modifies result
    ensures result.Valid() && old(result.found) <= result.found
    ensures BadOnes(result.found[|old(result.found)|..], files, full, referenced)
    ensures result.errors == []
      <==> old(result.errors) == [] && forall o | o in referenced :: ObjectIntact(files, full, o, referenced[o])
  {
    hide BadOnes, ObjectIntact;
    ghost var found0, bad := result.found, [];
    var remaining := referenced.Keys;
    NoneBad(files, full);
    assert referenced - remaining == map[];
    while remaining != {}
      invariant remaining <= referenced.Keys && result.Valid() && result.found == found0 + bad
      invariant BadOnes(bad, files, full, referenced - remaining)
      decreases remaining
    {
      var o :| o in remaining;
      OneMoreBad(bad, files, full, referenced - remaining, o, referenced[o]);
      assert referenced - (remaining - {o}) == (referenced - remaining)[o := referenced[o]];
      remaining := remaining - {o};
      var problem := VerifyObject(files, full, o, referenced[o]);
      IntactIsChecked(files, full, o, referenced[o]);
      if problem {
        result.Push(BadObject(o));
        bad := bad + [BadObject(o)];
      }
    }
    assert referenced - {} == referenced;
    NoneBadMeans(bad, files, full, referenced);
  }

  lemma NoneBad(files: map<Digest, ObjectFile>, full: bool)
    ensures BadOnes([], files, full, map[])
  {
  }

  lemma IntactIsChecked(files: map<Digest, ObjectFile>, full: bool, o: Digest, size: nat)
    ensures ObjectIntact(files, full, o, size) <==>
      o in files && if full then files[o] == ObjectFile(size, o) else files[o].size == size
  {
  }

  lemma NoneBadMeans(problems: seq<Problem>, files: map<Digest, ObjectFile>, full: bool, referenced: map<Digest, nat>)
    requires BadOnes(problems, files, full, referenced)
    ensures problems == [] <==> forall o | o in referenced :: ObjectIntact(files, full, o, referenced[o])
  {
    hide ObjectIntact;
    assert problems != [] ==> problems[0] in problems;
  }

  /** With every snapshot healthy, one check per object decides all entries of all snapshots. */
  lemma ProjectVerdict(store: Store, rules: ManifestRules, files: map<Digest, ObjectFile>, snapshots: seq<SnapshotRoot>,
                       parses: string -> bool, full: bool, visited: set<ManifestRef>, seen: set<Entry>,
                       referenced: map<Digest, nat>, conflicts: seq<Digest>)
    requires AllHealthy(store, rules, snapshots, parses)
    requires Graph(store, AllRoots(snapshots), visited) && seen == EntriesOf(store, visited)
      && Gathered(seen, referenced, conflicts)
    ensures (conflicts == [] && forall o | o in referenced :: ObjectIntact(files, full, o, referenced[o]))
       <==> forall s | s in snapshots :: SnapshotPasses(store, rules, files, s, parses, full)
  {
    ReferencesDecide(seen, referenced, conflicts, Intact(files, full));
    assert forall o, size ::
      ObjectIntact(files, full, o, size) <==> o in Intact(files, full) && Intact(files, full)[o] == size;
    assert forall e :: EntryPasses(files, full, e) <==> Present(Intact(files, full), e);
    RootsExpand(store, rules, snapshots);
    VisitsAreTheGraph(store, AllRoots(snapshots), MAX_LEVELS, visited);
    EntriesAreExpansion(store, AllRoots(snapshots));
    EverySnapshotPasses(store, rules, files, snapshots, parses, full);
  }

  lemma EverySnapshotPasses(store: Store, rules: ManifestRules, files: map<Digest, ObjectFile>,
                            snapshots: seq<SnapshotRoot>, parses: string -> bool, full: bool)
    requires AllHealthy(store, rules, snapshots, parses)
    ensures (forall e | e in Expansion(store, AllRoots(snapshots), MAX_LEVELS) :: EntryPasses(files, full, e))
       <==> forall s | s in snapshots :: SnapshotPasses(store, rules, files, s, parses, full)
  {
    hide Expansion, SnapshotHealthy, EntryPasses;
    forall e: Entry
      ensures e in Expansion(store, AllRoots(snapshots), MAX_LEVELS)
         <==> exists s :: s in snapshots && e in Expansion(store, RootsOf(s), MAX_LEVELS)
    {
      ExpansionOfAll(store, snapshots, e);
    }
  }

  /**
     The project is valid exactly when the repository checks pass, the manifest of every snapshot
     passes the naive check, and no snapshot overflows the validation cache it shares with those
     before it. The last part is no fault of the project: see ValidationOverflow.
   */
  method VerifyProject(store: Store, rules: ManifestRules, files: map<Digest, ObjectFile>, snapshots: seq<SnapshotRoot>,
                       parses: string -> bool, checks: RepositoryChecks, full: bool)
    returns (isValid: bool, errors: seq<Problem>)
    ensures isValid <==>
      && ChecksPass(checks, full) && NoOverflow(store, rules, snapshots)
      && forall s | s in snapshots :: SnapshotPasses(store, rules, files, s, parses, full)
    ensures isValid && full ==> forall s, e | s in snapshots && e in Expansion(store, RootsOf(s), MAX_LEVELS) ::
      e.objectId in files && files[e.objectId] == ObjectFile(e.size, e.objectId)
    ensures isValid <==> errors == []
    ensures |errors| <= MAX_VERIFICATION_ERRORS + 1
    ensures exists found :: errors == Capped(found) && Warranted(found, snapshots, checks, full)
  {
    hide SnapshotPasses, NoOverflow, Warranted, FromSnapshots;
    var result := new VerificationResult();
    if !checks.config {
      result.Push(BadConfig);
    }
    if full && !checks.physicalInventory {
      result.Push(BadPhysicalInventory);
    }
    ghost var before := result.found;
    VerifySnapshots(store, rules, files, snapshots, parses, full, result);
    ghost var checked := result.found;
    if !checks.latest {
      result.Push(BadLatest);
    }
    isValid, errors := result.errors == [], result.errors;
    WarrantedTogether(before, checked, result.found, snapshots, checks, full);
    if isValid && full {
      AllHoldEverything(store, rules, files, snapshots, parses);
    }
  }

  /** Collects all snapshots, then checks what they refer to. */
  method VerifySnapshots(store: Store, rules: ManifestRules, files: map<Digest, ObjectFile>,
                         snapshots: seq<SnapshotRoot>, parses: string -> bool, full: bool, result: VerificationResult)
    requires result.Valid()
    modifies result
    ensures result.Valid() && old(result.found) <= result.found
    ensures FromSnapshots(result.found[|old(result.found)|..], snapshots)
    ensures result.errors == [] <==>
      && old(result.errors) == [] && NoOverflow(store, rules, snapshots)
      && forall s | s in snapshots :: SnapshotPasses(store, rules, files, s, parses, full)
  {
    hide SnapshotPasses, ObjectIntact, Graph, AllHealthy, NoOverflow, OfSnapshots, BadOnes, FromSnapshots;
    ghost var before := result.found;
    var collector := new ReferenceCollector(parses);
    CollectAll(store, rules, snapshots, collector, result);
    ghost var collected := result.found;
    VerifyReferencedObjects(files, full, collector.referenced, result);
    if AllMark(store, rules, snapshots, parses) {
      ProjectVerdict(store, rules, files, snapshots, parses, full, collector.visited, collector.seen,
        collector.referenced, collector.conflicts);
    } else if !AllHealthy(store, rules, snapshots, parses) {
      SomeSnapshotFails(store, rules, files, snapshots, parses, full);
    }
    assert result.found[|before|..] == collected[|before|..] + result.found[|collected|..];
    BothFromSnapshots(collected[|before|..], result.found[|collected|..], snapshots, files, full, collector.referenced);
  }

  /** Problems of snapshots, or of object files. */
  ghost predicate FromSnapshots(problems: seq<Problem>, snapshots: seq<SnapshotRoot>) {
    forall p | p in problems :: p.BadObject? || exists i :: 0 <= i < |snapshots| && OfSnapshot(p, snapshots[i], i)
  }

  lemma BothFromSnapshots(collected: seq<Problem>, checked: seq<Problem>, snapshots: seq<SnapshotRoot>,
                          files: map<Digest, ObjectFile>, full: bool, referenced: map<Digest, nat>)
    requires OfSnapshots(collected, snapshots, |snapshots|) && BadOnes(checked, files, full, referenced)
    ensures FromSnapshots(collected + checked, snapshots)
  {
    hide ObjectIntact, OfSnapshot;
  }

  /** Each problem has its reason, and no failed repository check goes unsaid. */
  ghost predicate Warranted(problems: seq<Problem>, snapshots: seq<SnapshotRoot>, checks: RepositoryChecks,
                            full: bool)
  {
    && (BadConfig in problems <==> !checks.config)
    && (BadPhysicalInventory in problems <==> full && !checks.physicalInventory)
    && (BadLatest in problems <==> !checks.latest)
    && (forall i: nat | BadSnapshot(i) in problems :: i < |snapshots|)
    && (forall i: nat | WrongProject(i) in problems ::
          i < |snapshots| && snapshots[i].Header? && !snapshots[i].ownProject)
    && StoppedCollecting !in problems && forall path :: BadPath(path) !in problems
  }

  lemma WarrantedTogether(before: seq<Problem>, checked: seq<Problem>, all: seq<Problem>, snapshots: seq<SnapshotRoot>,
                          checks: RepositoryChecks, full: bool)
    requires before == (if checks.config then [] else [BadConfig])
                       + (if full && !checks.physicalInventory then [BadPhysicalInventory] else [])
    requires before <= checked && FromSnapshots(checked[|before|..], snapshots)
    requires all == checked + (if checks.latest then [] else [BadLatest])
    ensures Warranted(all, snapshots, checks, full)
  {
    var last := if checks.latest then [] else [BadLatest];
    assert checked == before + checked[|before|..];
    forall p: Problem
      ensures p in all <==> p in before || p in checked[|before|..] || p in last
    {
    }
  }

  lemma SomeSnapshotFails(store: Store, rules: ManifestRules, files: map<Digest, ObjectFile>,
                          snapshots: seq<SnapshotRoot>, parses: string -> bool, full: bool)
    requires !AllHealthy(store, rules, snapshots, parses)
    ensures exists s :: s in snapshots && !SnapshotPasses(store, rules, files, s, parses, full)
  {
  }

  // ---------------------------------------------------------------- one checkpoint

  /** The problem is one of this file list. */
  ghost predicate Grounded(p: Problem, files: map<Digest, ObjectFile>, entries: seq<Entry>, parses: string -> bool,
                           full: bool)
  {
    match p
    case BadPath(path) => !parses(path) && exists e :: e in entries && e.path == path
    case BadObject(o) => exists e :: e in entries && e.objectId == o && !EntryPasses(files, full, e)
    case ConflictingSize(o) =>
      exists e, f :: e in entries && f in entries && e.objectId == o && f.objectId == o && e.size != f.size
    case _ => false
  }

  ghost predicate AllGrounded(problems: seq<Problem>, files: map<Digest, ObjectFile>, entries: seq<Entry>,
                              parses: string -> bool, full: bool)
  {
    forall p | p in problems :: Grounded(p, files, entries, parses, full)
  }

  /** Nothing wrong with this entry goes unsaid. */
  ghost predicate Told(problems: seq<Problem>, files: map<Digest, ObjectFile>, e: Entry, parses: string -> bool,
                       full: bool)
  {
    && (!parses(e.path) ==> BadPath(e.path) in problems)
    && (!EntryPasses(files, full, e) ==> BadObject(e.objectId) in problems || ConflictingSize(e.objectId) in problems)
  }

  /** The problems of a file list are those of its entries, all of them and no others. */
  ghost predicate Explained(problems: seq<Problem>, files: map<Digest, ObjectFile>, entries: seq<Entry>,
                            parses: string -> bool, full: bool)
  {
    && AllGrounded(problems, files, entries, parses, full)
    && forall e | e in entries :: Told(problems, files, e, parses, full)
  }

  lemma ExplainedDecides(problems: seq<Problem>, files: map<Digest, ObjectFile>, entries: seq<Entry>,
                         parses: string -> bool, full: bool)
    requires Explained(problems, files, entries, parses, full)
    ensures problems == [] <==> forall e | e in entries :: parses(e.path) && EntryPasses(files, full, e)
  {
    hide EntryPasses;
    if problems != [] {
      var p := problems[0];
      assert p in problems && Grounded(p, files, entries, parses, full);
      if p.ConflictingSize? {
        var e, f :| e in entries && f in entries && e.objectId == p.objectId && f.objectId == p.objectId
          && e.size != f.size;
        OneSizePasses(files, full, e, f);
      }
    }
    forall e | e in entries && problems == []
      ensures parses(e.path) && EntryPasses(files, full, e)
    {
      assert Told(problems, files, e, parses, full);
    }
  }

  lemma OneSizePasses(files: map<Digest, ObjectFile>, full: bool, e: Entry, f: Entry)
    requires e.objectId == f.objectId && e.size != f.size
    ensures !EntryPasses(files, full, e) || !EntryPasses(files, full, f)
  {
  }

  /** What is known of one checked object after the entries so far: its first size, and whether it is a problem. */
  ghost predicate Checked(files: map<Digest, ObjectFile>, full: bool, entries: seq<Entry>, o: Digest, size: nat,
                          problems: seq<Problem>)
  {
    && (exists e :: e in entries && e.objectId == o && e.size == size)
    && (!ObjectIntact(files, full, o, size) ==> BadObject(o) in problems)
  }

  /** What one entry adds to the problems, given the sizes of the objects checked before. */
  ghost function EntryProblems(files: map<Digest, ObjectFile>, verified: map<Digest, nat>, e: Entry,
                               parses: string -> bool, full: bool): seq<Problem>
  {
    (if parses(e.path) then [] else [BadPath(e.path)])
    + (if e.objectId !in verified then if EntryPasses(files, full, e) then [] else [BadObject(e.objectId)]
       else if verified[e.objectId] == e.size then [] else [ConflictingSize(e.objectId)])
  }

  /** The state of the check after `i` entries. */
  ghost predicate Progress(problems: seq<Problem>, verified: map<Digest, nat>, files: map<Digest, ObjectFile>,
                           entries: seq<Entry>, i: nat, parses: string -> bool, full: bool)
    requires i <= |entries|
  {
    && AllGrounded(problems, files, entries, parses, full)
    && (forall k | 0 <= k < i :: Told(problems, files, entries[k], parses, full))
    && (forall o | o in verified :: Checked(files, full, entries, o, verified[o], problems))
    && verified.Keys == set e | e in entries[..i] :: e.objectId
  }

  lemma NextIsGrounded(verified: map<Digest, nat>, files: map<Digest, ObjectFile>, entries: seq<Entry>, i: nat,
                       problems: seq<Problem>, parses: string -> bool, full: bool)
    requires i < |entries|
    requires entries[i].objectId in verified ==>
      Checked(files, full, entries, entries[i].objectId, verified[entries[i].objectId], problems)
    ensures var added := EntryProblems(files, verified, entries[i], parses, full);
      && AllGrounded(added, files, entries, parses, full)
      && Told(problems + added, files, entries[i], parses, full)
  {
    var e := entries[i];
    assert e in entries;
    var added := EntryProblems(files, verified, e, parses, full);
    if !parses(e.path) {
      assert added[0] == BadPath(e.path) && (problems + added)[|problems|] == added[0];
    }
    assert added != [] ==> (problems + added)[|problems| + |added| - 1] == added[|added| - 1];
    assert forall p | p in problems :: p in problems + added;
  }

  lemma NextIsChecked(verified: map<Digest, nat>, files: map<Digest, ObjectFile>, entries: seq<Entry>, i: nat,
                      problems: seq<Problem>, parses: string -> bool, full: bool)
    requires i < |entries| && entries[i].objectId !in verified
    ensures Checked(files, full, entries, entries[i].objectId, entries[i].size,
                    problems + EntryProblems(files, verified, entries[i], parses, full))
  {
    var added := EntryProblems(files, verified, entries[i], parses, full);
    assert entries[i] in entries;
    assert added != [] ==> (problems + added)[|problems| + |added| - 1] == added[|added| - 1];
  }

  lemma ToldByMore(before: seq<Problem>, after: seq<Problem>, files: map<Digest, ObjectFile>, e: Entry,
                   parses: string -> bool, full: bool)
    requires (forall p | p in before :: p in after) && Told(before, files, e, parses, full)
    ensures Told(after, files, e, parses, full)
  {
  }

  lemma CheckedByMore(before: seq<Problem>, after: seq<Problem>, files: map<Digest, ObjectFile>, entries: seq<Entry>,
                      o: Digest, size: nat, full: bool)
    requires (forall p | p in before :: p in after) && Checked(files, full, entries, o, size, before)
    ensures Checked(files, full, entries, o, size, after)
  {
  }

  lemma StillTold(problems: seq<Problem>, after: seq<Problem>, verified: map<Digest, nat>,
                  files: map<Digest, ObjectFile>, entries: seq<Entry>, i: nat, parses: string -> bool, full: bool)
    requires i <= |entries| && Progress(problems, verified, files, entries, i, parses, full)
    requires forall p | p in problems :: p in after
    ensures forall k | 0 <= k < i :: Told(after, files, entries[k], parses, full)
    ensures forall o | o in verified :: Checked(files, full, entries, o, verified[o], after)
  {
    hide Grounded, Told, Checked, AllGrounded;
    forall k | 0 <= k < i
      ensures Told(after, files, entries[k], parses, full)
    {
      ToldByMore(problems, after, files, entries[k], parses, full);
    }
    forall o | o in verified
      ensures Checked(files, full, entries, o, verified[o], after)
    {
      CheckedByMore(problems, after, files, entries, o, verified[o], full);
    }
  }

  function Remembered(verified: map<Digest, nat>, e: Entry): map<Digest, nat> {
    if e.objectId in verified then verified else verified[e.objectId := e.size]
  }

  lemma OneMoreObject(verified: map<Digest, nat>, entries: seq<Entry>, i: nat)
    requires i < |entries| && verified.Keys == set e | e in entries[..i] :: e.objectId
    ensures Remembered(verified, entries[i]).Keys == set e | e in entries[..i + 1] :: e.objectId
  {
    assert entries[..i + 1] == entries[..i] + [entries[i]];
    assert Remembered(verified, entries[i]).Keys == verified.Keys + {entries[i].objectId};
  }

  lemma BothGrounded(a: seq<Problem>, b: seq<Problem>, files: map<Digest, ObjectFile>, entries: seq<Entry>,
                     parses: string -> bool, full: bool)
    requires AllGrounded(a, files, entries, parses, full) && AllGrounded(b, files, entries, parses, full)
    ensures AllGrounded(a + b, files, entries, parses, full)
  {
    hide Grounded;
  }

  lemma OneMoreEntry(problems: seq<Problem>, verified: map<Digest, nat>, files: map<Digest, ObjectFile>,
                     entries: seq<Entry>, i: nat, parses: string -> bool, full: bool)
    requires i < |entries| && Progress(problems, verified, files, entries, i, parses, full)
    ensures Progress(problems + EntryProblems(files, verified, entries[i], parses, full),
                     Remembered(verified, entries[i]), files, entries, i + 1, parses, full)
  {
    hide Grounded, Told, Checked, EntryProblems, AllGrounded;
    var e := entries[i];
    var added := EntryProblems(files, verified, e, parses, full);
    NextIsGrounded(verified, files, entries, i, problems, parses, full);
    BothGrounded(problems, added, files, entries, parses, full);
    if e.objectId !in verified {
      NextIsChecked(verified, files, entries, i, problems, parses, full);
    }
    StillTold(problems, problems + added, verified, files, entries, i, parses, full);
    OneMoreObject(verified, entries, i);
  }

  /** Checks one entry: its path, then its object, unless an earlier entry has had it checked already. */
  method VerifyEntry(files: map<Digest, ObjectFile>, e: Entry, verified: map<Digest, nat>, parses: string -> bool,
                     full: bool, result: VerificationResult)
    returns (next: map<Digest, nat>)
    requires result.Valid()
    modifies result
    ensures result.Valid()
    ensures result.found == old(result.found) + EntryProblems(files, verified, e, parses, full)
    ensures next == Remembered(verified, e)
  {
    if !parses(e.path) {
      result.Push(BadPath(e.path));
    }
    if e.objectId in verified {
      if verified[e.objectId] != e.size {
        result.Push(ConflictingSize(e.objectId));
      }
      return verified;
    }
    var problem := VerifyObject(files, full, e.objectId, e.size);
    if problem {
      result.Push(BadObject(e.objectId));
    }
    return verified[e.objectId := e.size];
  }

  /** Checks a file list, each object once with the first size the list gives it. */
  method VerifyFiles(files: map<Digest, ObjectFile>, entries: seq<Entry>, parses: string -> bool, full: bool,
                     result: VerificationResult)
    returns (checks: nat)
    requires result.Valid() && result.found == []
    modifies result
    ensures result.Valid() && Explained(result.found, files, entries, parses, full)
    ensures result.errors == [] <==> forall e | e in entries :: parses(e.path) && EntryPasses(files, full, e)
    ensures checks == |set e | e in entries :: e.objectId|
  {
    hide Progress, EntryProblems, Explained, EntryPasses;
    var verified: map<Digest, nat> := map[];
    NothingChecked(files, entries, parses, full);
    for i := 0 to |entries|
      invariant result.Valid() && Progress(result.found, verified, files, entries, i, parses, full)
    {
      OneMoreEntry(result.found, verified, files, entries, i, parses, full);
      verified := VerifyEntry(files, entries[i], verified, parses, full, result);
    }
    EveryEntryChecked(result.found, verified, files, entries, parses, full);
    ExplainedDecides(result.found, files, entries, parses, full);
    return |verified|;
  }

  lemma NothingChecked(files: map<Digest, ObjectFile>, entries: seq<Entry>, parses: string -> bool, full: bool)
    ensures Progress([], map[], files, entries, 0, parses, full)
  {
  }

  lemma EveryEntryChecked(problems: seq<Problem>, verified: map<Digest, nat>, files: map<Digest, ObjectFile>,
                          entries: seq<Entry>, parses: string -> bool, full: bool)
    requires Progress(problems, verified, files, entries, |entries|, parses, full)
    ensures Explained(problems, files, entries, parses, full)
    ensures |verified| == |set e | e in entries :: e.objectId|
  {
    hide Grounded, Told, Checked;
    assert entries[..|entries|] == entries;
  }

  lemma SameProblems(problems: seq<Problem>, files: map<Digest, ObjectFile>, a: seq<Entry>, b: seq<Entry>,
                     parses: string -> bool, full: bool)
    requires (forall e :: e in a <==> e in b) && Explained(problems, files, a, parses, full)
    ensures Explained(problems, files, b, parses, full)
  {
    hide EntryPasses, Told;
  }

  /** The checkpoint is valid exactly when it loads and every object of its list is intact. */
  method VerifyCheckpoint(store: Store, rules: ManifestRules, files: map<Digest, ObjectFile>, s: SnapshotRoot,
                          parses: string -> bool, dated: Instant -> bool, full: bool)
    returns (isValid: bool, errors: seq<Problem>)
    ensures isValid <==> CheckpointPasses(store, rules, files, s, parses, dated, full)
    ensures !isValid ==>
      if SnapshotHealthy(store, rules, s, parses) && Loadable(store, rules, s, dated) then
        exists found :: errors == Capped(found) && Explained(found, files, Below(store, RootsOf(s)), parses, full)
      else errors == [BadSnapshot(0)]
    ensures isValid && full ==> forall e | e in Expansion(store, RootsOf(s), MAX_LEVELS) ::
      e.objectId in files && files[e.objectId] == ObjectFile(e.size, e.objectId)
    ensures isValid <==> errors == []
    ensures |errors| <= MAX_VERIFICATION_ERRORS + 1
  {
    hide Expansion, EntryPasses, Acceptable, Loadable;
    var result := new VerificationResult();
    var loaded := LoadSnapshot(store, rules, s, parses, dated);
    if loaded.None? {
      result.Push(BadSnapshot(0));
    } else {
      SameMembers(loaded.value, Below(store, RootsOf(s)));
      var _ := VerifyFiles(files, loaded.value, parses, full, result);
      SameProblems(result.found, files, loaded.value, Below(store, RootsOf(s)), parses, full);
    }
    isValid, errors := result.errors == [], result.errors;
    if isValid && full {
      FullVerdictIsAboutContent(store, rules, files, s, parses);
    }
  }

  // ---------------------------------------------------------------- what the verdicts are about

  /** Every file the snapshot needs is there, byte for byte: its own length, and the digest it is named by. */
  ghost predicate HoldsEverything(store: Store, files: map<Digest, ObjectFile>, s: SnapshotRoot) {
    forall e | e in Expansion(store, RootsOf(s), MAX_LEVELS) ::
      e.objectId in files && files[e.objectId] == ObjectFile(e.size, e.objectId)
  }

  /** The lengths of the object files, without their content. */
  function Lengths(files: map<Digest, ObjectFile>): map<Digest, nat> {
    map o | o in files :: files[o].size
  }

  /** A full check of a healthy snapshot passes exactly if the files are the ones it was made of. */
  lemma FullVerdictIsAboutContent(store: Store, rules: ManifestRules, files: map<Digest, ObjectFile>, s: SnapshotRoot,
                                  parses: string -> bool)
    ensures SnapshotPasses(store, rules, files, s, parses, true)
       <==> SnapshotHealthy(store, rules, s, parses) && HoldsEverything(store, files, s)
  {
    hide SnapshotHealthy, Expansion;
  }

  lemma AllHoldEverything(store: Store, rules: ManifestRules, files: map<Digest, ObjectFile>,
                          snapshots: seq<SnapshotRoot>, parses: string -> bool)
    requires forall s | s in snapshots :: SnapshotPasses(store, rules, files, s, parses, true)
    ensures forall s, e | s in snapshots && e in Expansion(store, RootsOf(s), MAX_LEVELS) ::
      e.objectId in files && files[e.objectId] == ObjectFile(e.size, e.objectId)
  {
    hide SnapshotPasses, Expansion;
    forall s | s in snapshots
      ensures HoldsEverything(store, files, s)
    {
      FullVerdictIsAboutContent(store, rules, files, s, parses);
    }
  }

  /** A quick check does not see the content: it passes exactly if the lengths are right, whatever the digests. */
  lemma QuickVerdictIsAboutLengths(store: Store, rules: ManifestRules, files: map<Digest, ObjectFile>,
                                   other: map<Digest, ObjectFile>, s: SnapshotRoot, parses: string -> bool)
    ensures SnapshotPasses(store, rules, files, s, parses, false)
       <==> SnapshotHealthy(store, rules, s, parses)
            && forall e | e in Expansion(store, RootsOf(s), MAX_LEVELS) :: Present(Lengths(files), e)
    ensures Lengths(other) == Lengths(files) ==>
      (SnapshotPasses(store, rules, other, s, parses, false) <==>
       SnapshotPasses(store, rules, files, s, parses, false))
    ensures SnapshotPasses(store, rules, files, s, parses, true) ==>
      SnapshotPasses(store, rules, files, s, parses, false)
  {
    hide SnapshotHealthy, Expansion;
    forall e: Entry
      ensures EntryPasses(files, false, e) <==> Present(Lengths(files), e)
      ensures EntryPasses(other, false, e) <==> Present(Lengths(other), e)
      ensures EntryPasses(files, true, e) ==> EntryPasses(files, false, e)
    {
    }
  }

  // ---------------------------------------------------------------- the two verdicts

  /** A snapshot whose manifest passes also loads, unless it has a fault the manifest does not show. */
  lemma PassesAndLoads(store: Store, rules: ManifestRules, files: map<Digest, ObjectFile>, s: SnapshotRoot,
                       parses: string -> bool, dated: Instant -> bool, full: bool)
    ensures CheckpointPasses(store, rules, files, s, parses, dated, full)
       <==> SnapshotPasses(store, rules, files, s, parses, full) && !HiddenFault(store, rules, s, dated)
  {
    hide EntryPasses, KeysBelow, Below, NoAncestors, HasFarAncestor, AllDated, AllFine, PathsParse;
    if Acceptable(store, rules, s) {
      OnlyFarAncestors(KeysBelow(store, rules, RootsOf(s)));
    }
  }

  /**
   All checkpoints are valid one by one exactly when the manifest of each passes and none has a
   hidden fault. So the verdict on a project and the verdicts on its checkpoints agree, where the
   repository checks and the shared cache have no say, unless everything a project is verified for
   is in order and some checkpoint has a hidden fault.
   */
  lemma VerdictsAgree(store: Store, rules: ManifestRules, files: map<Digest, ObjectFile>, snapshots: seq<SnapshotRoot>,
                      parses: string -> bool, dated: Instant -> bool, full: bool)
    ensures var passes := forall s | s in snapshots :: SnapshotPasses(store, rules, files, s, parses, full);
      var valid := forall s | s in snapshots :: CheckpointPasses(store, rules, files, s, parses, dated, full);
      && (valid <==> passes && forall s | s in snapshots :: !HiddenFault(store, rules, s, dated))
      && ((valid <==> passes) <==> !(passes && exists s :: s in snapshots && HiddenFault(store, rules, s, dated)))
  {
    hide SnapshotPasses, CheckpointPasses, HiddenFault;
    forall s | s in snapshots
      ensures CheckpointPasses(store, rules, files, s, parses, dated, full)
         <==> SnapshotPasses(store, rules, files, s, parses, full) && !HiddenFault(store, rules, s, dated)
    {
      PassesAndLoads(store, rules, files, s, parses, dated, full);
    }
  }
}
