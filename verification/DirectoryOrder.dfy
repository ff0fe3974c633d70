/**
 The orders in which directories are removed, created and synced (models/transaction.rs,
 storage/fs_safety.rs). Sorting and removing adjacent duplicates are the library's; what the
 comparisons make of them is proved here.
 */
module DirectoryOrder {
  import opened Outcomes
  import opened PathOrder
  import opened Sequences
  import opened Sorting

  // ---------------------------------------------------------------- plan directories

  /** How many slashes a path has, so how deep it lies. */
  function Slashes(path: string): nat {
    if path == "" then 0 else (if path[0] == '/' then 1 else 0) + Slashes(path[1..])
  }

  /** `a` is a proper ancestor directory of `b`. */
  predicate IsAncestor(a: string, b: string) {
    |a| < |b| && b[..|a|] == a && b[|a|] == '/'
  }

  /** A proper ancestor is what some path below it goes on from after a slash. */
  lemma AncestorsGoOn(a: string, b: string)
    ensures IsAncestor(a, b) <==> exists rest: string :: b == a + ['/'] + rest
  {
    if IsAncestor(a, b) {
      assert b == a + ['/'] + b[|a| + 1..];
    }
    if rest: string :| b == a + ['/'] + rest {
      assert b[..|a|] == a && b[|a|] == '/';
    }
  }

  predicate RemovedBefore(a: string, b: string) {
    Slashes(a) > Slashes(b) || (Slashes(a) == Slashes(b) && Less(a, b))
  }

  lemma {:induction false} SlashesConcat(a: string, b: string)
    ensures Slashes(a + b) == Slashes(a) + Slashes(b)
  {
    if a == "" {
      assert a + b == b;
    } else {
      SlashesConcat(a[1..], b);
      assert (a + b)[1..] == a[1..] + b;
    }
  }

  lemma AncestorIsShallower(a: string, b: string)
    requires IsAncestor(a, b)
    ensures Slashes(a) < Slashes(b) && Less(a, b)
  {
    var rest := b[|a|..];
    assert b == a + rest && rest[0] == '/';
    SlashesConcat(a, rest);
    PrefixFirst(a, b);
  }

  lemma LessIsOrder()
    ensures IsOrder(Less)
  {
    forall a: string, b: string, c: string
      ensures !Less(a, a) && (a == b || Less(a, b) || Less(b, a)) && (Less(a, b) && Less(b, c) ==> Less(a, c))
    {
      Irreflexive(a);
      Total(a, b);
      if Less(a, b) && Less(b, c) {
        Transitive(a, b, c);
      }
    }
  }

  lemma RemovedBeforeIsOrder()
    ensures IsOrder(RemovedBefore)
  {
    hide Less, Slashes;
    LessIsOrder();
  }

  datatype OperationPlan = OperationPlan(
    hasChanges: bool, directoriesToRemove: seq<string>, directoriesToCreate: seq<string>)

  /** Directories are emptied from below: whatever lies under a directory is removed before it. */
  ghost predicate DescendantsFirst(paths: seq<string>) {
    forall i, j | 0 <= i < |paths| && 0 <= j < |paths| && IsAncestor(paths[i], paths[j]) :: j < i
  }

  ghost predicate AncestorsFirst(paths: seq<string>) {
    forall i, j | 0 <= i < |paths| && 0 <= j < |paths| && IsAncestor(paths[i], paths[j]) :: i < j
  }

  lemma RemovalOrder(paths: seq<string>)
    requires StrictlySorted(paths, RemovedBefore)
    ensures DescendantsFirst(paths) && Distinct(paths)
  {
    forall i, j | 0 <= i < |paths| && 0 <= j < |paths| && IsAncestor(paths[i], paths[j])
      ensures j < i
    {
      AncestorIsShallower(paths[i], paths[j]);
      assert i < j ==> RemovedBefore(paths[i], paths[j]);
    }
    RemovedBeforeIsOrder();
  }

  lemma CreationOrder(paths: seq<string>)
    requires StrictlySorted(paths, Less)
    ensures AncestorsFirst(paths) && Distinct(paths)
  {
    LessIsOrder();
    forall i, j | 0 <= i < |paths| && 0 <= j < |paths| && IsAncestor(paths[i], paths[j])
      ensures i < j
    {
      AncestorIsShallower(paths[i], paths[j]);
    }
  }

  /** Keeps exactly the given directories, each once, in an order in which the steps can be carried out. */
  method WithDirectoryChanges(plan: OperationPlan, directoriesToRemove: seq<string>, directoriesToCreate: seq<string>)
    returns (next: OperationPlan)
    ensures DescendantsFirst(next.directoriesToRemove) && Distinct(next.directoriesToRemove)
    ensures AncestorsFirst(next.directoriesToCreate) && Distinct(next.directoriesToCreate)
    ensures forall p :: p in next.directoriesToRemove <==> p in directoriesToRemove
    ensures forall p :: p in next.directoriesToCreate <==> p in directoriesToCreate
    ensures next.hasChanges <==> plan.hasChanges || directoriesToRemove != [] || directoriesToCreate != []
  {
    hide Sort, Dedup, IsOrder;
    var removals := Dedup(Sort(directoriesToRemove, RemovedBefore));
    var creations := Dedup(Sort(directoriesToCreate, Less));
    RemovedBeforeIsOrder();
    LessIsOrder();
    SortedSet(directoriesToRemove, RemovedBefore);
    SortedSet(directoriesToCreate, Less);
    RemovalOrder(removals);
    CreationOrder(creations);
    SameEmptiness(directoriesToRemove, removals);
    SameEmptiness(directoriesToCreate, creations);
    next := OperationPlan(plan.hasChanges || removals != [] || creations != [], removals, creations);
  }

  lemma SameEmptiness(a: seq<string>, b: seq<string>)
    requires forall p :: p in b <==> p in a
    ensures a == [] <==> b == []
  {
    if a != [] {
      assert a[0] in b;
    }
    if b != [] {
      assert b[0] in a;
    }
  }

  // ---------------------------------------------------------------- directory syncs

  /** An absolute path by its components. */
  type Path = seq<string>

  predicate ComponentsLess(a: Path, b: Path) {
    if b == [] then false
    else if a == [] then true
    else Less(a[0], b[0]) || (a[0] == b[0] && ComponentsLess(a[1..], b[1..]))
  }

  predicate SyncedBefore(a: Path, b: Path) {
    |a| > |b| || (|a| == |b| && ComponentsLess(a, b))
  }

  lemma {:induction false} ComponentsTotal(a: Path, b: Path)
    ensures a == b || ComponentsLess(a, b) || ComponentsLess(b, a)
  {
    if a != [] && b != [] {
      Total(a[0], b[0]);
      ComponentsTotal(a[1..], b[1..]);
      assert a == [a[0]] + a[1..] && b == [b[0]] + b[1..];
    }
  }

  lemma {:induction false} ComponentsIrreflexive(a: Path)
    ensures !ComponentsLess(a, a)
  {
    if a != [] {
      Irreflexive(a[0]);
      ComponentsIrreflexive(a[1..]);
    }
  }

  lemma {:induction false} ComponentsTransitive(a: Path, b: Path, c: Path)
    requires ComponentsLess(a, b) && ComponentsLess(b, c)
    ensures ComponentsLess(a, c)
  {
    if a != [] {
      if Less(a[0], b[0]) && Less(b[0], c[0]) {
        Transitive(a[0], b[0], c[0]);
      } else if a[0] == b[0] && b[0] == c[0] && ComponentsLess(a[1..], b[1..]) && ComponentsLess(b[1..], c[1..]) {
        ComponentsTransitive(a[1..], b[1..], c[1..]);
      }
    }
  }

  lemma SyncedBeforeIsOrder()
    ensures IsOrder(SyncedBefore)
  {
    hide ComponentsLess;
    forall a: Path, b: Path, c: Path
      ensures !SyncedBefore(a, a) && (a == b || SyncedBefore(a, b) || SyncedBefore(b, a))
      ensures SyncedBefore(a, b) && SyncedBefore(b, c) ==> SyncedBefore(a, c)
    {
      ComponentsIrreflexive(a);
      ComponentsTotal(a, b);
      if ComponentsLess(a, b) && ComponentsLess(b, c) {
        ComponentsTransitive(a, b, c);
      }
    }
  }

  datatype SyncError = OutsideRoot | DifferentRoots | SyncFailed

  /** Every directory is synced before the one whose entry makes it reachable. */
  ghost predicate DeepestFirst(synced: seq<Path>) {
    forall i, j | 0 <= i < |synced| && 0 <= j < |synced| && synced[i] < synced[j] :: j < i
  }

  class DirectorySyncBatch {
    const trustedRoot: Path
    var directories: set<Path>

    constructor (trustedRoot: Path)
      ensures this.trustedRoot == trustedRoot && directories == {}
    {
      this.trustedRoot := trustedRoot;
      directories := {};
    }

    /** Nothing outside the trusted root is ever recorded. */
    ghost predicate Valid()
      reads this
    {
      forall d | d in directories :: trustedRoot <= d
    }

    method RecordDirectory(directory: Path) returns (res: Result<Unit, SyncError>)
      requires Valid()
      modifies this
      ensures Valid() && (res.Ok? <==> trustedRoot <= directory)
      ensures directories == if res.Ok? then old(directories) + {directory} else old(directories)
    {
      if !(trustedRoot <= directory) {
        return Err(OutsideRoot);
      }
      directories := directories + {directory};
      return Ok(Done);
    }

    method Merge(other: DirectorySyncBatch) returns (res: Result<Unit, SyncError>)
      requires Valid() && other.Valid()
      modifies this
      ensures Valid() && (res.Ok? <==> trustedRoot == other.trustedRoot)
      ensures directories == if res.Ok? then old(directories) + old(other.directories) else old(directories)
    {
      if trustedRoot != other.trustedRoot {
        return Err(DifferentRoots);
      }
      directories := directories + other.directories;
      return Ok(Done);
    }

    /**
     Takes everything out of the batch and syncs it, deepest first. On success every recorded
     directory was synced exactly once; on failure the order of what was synced is the same.
     */
    method Flush(syncs: Path -> bool) returns (res: Result<Unit, SyncError>, synced: seq<Path>)
      requires Valid()
      modifies this
      ensures directories == {}
      ensures DeepestFirst(synced) && Distinct(synced)
      ensures forall d | d in synced :: d in old(directories) && syncs(d)
      ensures res.Ok? <==> forall d | d in old(directories) :: syncs(d)
      ensures res.Ok? ==> forall d | d in old(directories) :: d in synced
    {
      hide Sort, IsOrder, StrictlySorted;
      var listed := Listed(directories);
      directories := {};
      var order := Sort(listed, SyncedBefore);
      SyncedBeforeIsOrder();
      SortedDistinct(listed, SyncedBefore);
      SyncOrder(order);
      synced := [];
      for i := 0 to |order|
        invariant synced == order[..i] && forall d | d in synced :: syncs(d)
      {
        if !syncs(order[i]) {
          assert order[i] in order;
          return Err(SyncFailed), synced;
        }
        synced := synced + [order[i]];
      }
      return Ok(Done), synced;
    }
  }

  lemma SyncOrder(order: seq<Path>)
    requires StrictlySorted(order, SyncedBefore)
    ensures forall i | 0 <= i <= |order| :: DeepestFirst(order[..i]) && Distinct(order[..i])
  {
    SyncedBeforeIsOrder();
  }

  /** The directories of a batch in some order. */
  method Listed(directories: set<Path>) returns (listed: seq<Path>)
    ensures Distinct(listed) && forall d :: d in listed <==> d in directories
  {
    var remaining := directories;
    listed := [];
    while remaining != {}
      invariant remaining <= directories && Distinct(listed)
        && forall d :: d in listed <==> d in directories - remaining
    {
      var d :| d in remaining;
      assert forall i | 0 <= i < |listed| :: listed[i] in listed;
      listed, remaining := listed + [d], remaining - {d};
    }
  }
}
