/**
 Why a published checkpoint never misses an object or a manifest chunk after a power loss
 (checkpoint.rs, chunk_store.rs), although whatever the parent checkpoint refers to is not
 synced again.

 An item is visible once its file is linked under its content address; file contents are
 synced before the link. The link itself is durable only when every directory on its path has
 been synced since. `unsynced` holds the links, directory by directory, that are not.

 An unlink is no different. A deletion unlinks a root, then syncs its directory; a process that
 stops in between leaves the unlink `lingering`, and recovery, which finds the root gone already,
 does not sync for it. A power loss may then bring the root back, so it matters what garbage
 collection has removed meanwhile. A root whose link is not synced yet is `loose`: a power loss may
 take it. Every sync is counted, so that an operation with enough of them is known to succeed.
 */
module PublishBarrier {
  import opened Outcomes
  import opened Manifests
  import opened Sums

  type SnapshotId = Digest
  type Directory = string

  datatype Item = Object(objectId: Digest) | ChunkFile(chunk: ManifestRef)

  datatype Interruption = Stopped | Cancelled | ReadbackFailed

  /** What may end a creation early although its process goes on. */
  datatype Faults = Faults(cancel: bool, readback: bool)

  const MAX_PENDING: nat := 128

  /** How many directories are on the path of each item. */
  ghost function Lengths(path: Item -> set<Directory>): Item -> nat {
    item => |path(item)|
  }

  /** The syncs it takes to publish a root: one for every directory of every item to be stored, one for its own. */
  ghost function Cost(items: set<Item>, path: Item -> set<Directory>): nat {
    Sum(items, Lengths(path)) + 1
  }

  class Storage {
    /** The objects and chunks a root refers to, directly or through its manifest. */
    const needs: SnapshotId -> set<Item>
    /** The directories on the path of an item, from its shard up to the repository. */
    const path: Item -> set<Directory>
    /** The directory a root is linked in. */
    const home: SnapshotId -> Directory
    var visible: set<Item>
    var unsynced: set<(Item, Directory)>
    var roots: set<SnapshotId>
    /** Roots whose unlink a power loss may undo. */
    var lingering: set<SnapshotId>
    /** Roots whose link a power loss may undo. */
    var loose: set<SnapshotId>
    /** Directories the running operation still has to sync. */
    var batch: set<Directory>
    /** Directory syncs left before the process stops. */
    var budget: nat

    constructor (needs: SnapshotId -> set<Item>, path: Item -> set<Directory>, home: SnapshotId -> Directory)
      ensures this.needs == needs && this.path == path && this.home == home
      ensures roots == {} && lingering == {} && loose == {} && Sound()
    {
      this.needs, this.path, this.home := needs, path, home;
      visible, unsynced, roots, lingering, loose, batch, budget := {}, {}, {}, {}, {}, {}, 0;
    }

    ghost predicate Durable(item: Item)
      reads this`visible, this`unsynced
    {
      item in visible && forall d | d in path(item) :: (item, d) !in unsynced
    }

    /** Every root that is there, or may be there again, can be restored from durable items alone. */
    ghost predicate Sound()
      reads this`visible, this`unsynced, this`roots, this`lingering
    {
      && (forall item, d | (item, d) in unsynced :: d in path(item))
      && AllDurable(roots + lingering)
    }

    ghost predicate AllDurable(rs: set<SnapshotId>)
      reads this`visible, this`unsynced
    {
      forall r, item | r in rs && item in needs(r) :: Durable(item)
    }

    /** A power loss may leave exactly these items and roots. */
    ghost predicate Image(survivors: set<Item>, remaining: set<SnapshotId>)
      reads this`visible, this`unsynced, this`roots, this`lingering, this`loose
    {
      && survivors <= visible && (forall item | Durable(item) :: item in survivors)
      && roots - loose <= remaining <= roots + lingering
    }

    ghost predicate AllComplete(survivors: set<Item>, remaining: set<SnapshotId>) {
      forall r, item | r in remaining && item in needs(r) :: item in survivors
    }

    /** Durability of everything such roots need is not just enough, it is what it takes. */
    lemma ImagesDecide()
      ensures (forall survivors, remaining | Image(survivors, remaining) :: AllComplete(survivors, remaining))
         <==> AllDurable(roots + lingering)
    {
      if r, item :| r in roots + lingering && item in needs(r) && !Durable(item) {
        var survivors := set i | i in visible && Durable(i);
        assert Image(survivors, roots + lingering) && r in roots + lingering && item !in survivors;
      }
    }

    /** Syncing the rest of the batch makes this item durable. */
    ghost predicate Covered(item: Item)
      reads this
    {
      item in visible && forall d | (item, d) in unsynced :: d in batch
    }

    /** No link of an item already visible comes loose, and recorded directories are synced or still recorded. */
    twostate predicate Kept()
      reads this
    {
      && old(visible) <= visible && roots == old(roots) && lingering <= old(lingering) && loose <= old(loose)
      && forall link | link in unsynced && link.0 in old(visible) ::
           link in old(unsynced) && (link.1 in old(batch) ==> link.1 in batch)
    }

    /** Without a sync no link and no unlink becomes durable, least of all a new one. */
    twostate predicate NothingForFree()
      reads this
    {
      budget == old(budget) ==>
        && old(loose) <= loose && old(unsynced) <= unsynced
        && forall item, d | item in visible && item !in old(visible) && d in path(item) :: (item, d) in unsynced
    }

    twostate lemma KeptItems(items: set<Item>)
      requires Kept()
      ensures forall item | item in items && old(Durable(item)) :: Durable(item)
      ensures forall item | item in items && old(Covered(item)) :: Covered(item)
    {
    }

    /** Roots that were sound stay sound while nothing durable is lost. */
    twostate lemma StillSound()
      requires old(Sound()) && Kept()
      requires forall item, d | (item, d) in unsynced :: d in path(item)
      ensures Sound()
    {
      forall r, item | r in roots + lingering && item in needs(r)
        ensures Durable(item)
      {
        assert old(Durable(item));
      }
    }

    // -------------------------------------------------------------- the directory batch

    /** The syncs left over once the batch is synced; negative if there are not enough. */
    ghost function Spare(): int
      reads this`budget, this`batch
    {
      budget - |batch|
    }


    /** Makes every link and every unlink in a directory durable. */
    method SyncOne(d: Directory) returns (res: Result<Unit, Interruption>)
      requires Sound()
      modifies this
      ensures Sound() && Kept() && visible == old(visible)
      ensures res.Ok? <==> old(budget) > 0
      ensures res.Ok? ==> batch == old(batch) - {d} && lingering == set r | r in old(lingering) && home(r) != d
      ensures res.Ok? ==> loose == set r | r in old(loose) && home(r) != d
      ensures res.Ok? ==> unsynced == (set link | link in old(unsynced) && link.1 != d) && budget == old(budget) - 1
      ensures res.Err? ==> unsynced == old(unsynced) && budget == old(budget)
      ensures res.Ok? ==> Spare() == old(Spare()) - (if d in old(batch) then 0 else 1)
      ensures res.Err? ==> res.error == Stopped && lingering == old(lingering) && loose == old(loose)
      ensures res.Err? ==> budget == 0 && Spare() == old(Spare())
    {
      if budget == 0 {
        return Err(Stopped);
      }
      budget := budget - 1;
      unsynced := set link | link in unsynced && link.1 != d;
      lingering := set r | r in lingering && home(r) != d;
      loose := set r | r in loose && home(r) != d;
      batch := batch - {d};
      StillSound();
      return Ok(Done);
    }

    method Flush() returns (res: Result<Unit, Interruption>)
      requires Sound()
      modifies this
      ensures Sound() && Kept() && visible == old(visible) && Spare() == old(Spare())
      ensures NothingForFree() && budget <= old(budget)
      ensures res.Ok? ==> batch == {}
      ensures res.Err? ==> res.error == Stopped && budget == 0
    {
      label start:
      while batch != {}
        invariant Sound() && Kept@start() && visible == old(visible) && Spare() == old(Spare())
        invariant NothingForFree@start() && budget <= old(budget)
        decreases |batch|
      {
        var d :| d in batch;
        label before:
        var _ :- SyncOne(d);
        assert |old@before(batch)| == |batch| + 1;
      }
      return Ok(Done);
    }

    /** Adds a directory; a full batch is synced first. */
    method Record(d: Directory) returns (res: Result<Unit, Interruption>)
      requires Sound() && |batch| <= MAX_PENDING
      modifies this
      ensures Sound() && Kept() && visible == old(visible) && Spare() >= old(Spare()) - 1
      ensures NothingForFree() && budget <= old(budget) && |batch| <= MAX_PENDING
      ensures d in old(batch) || |old(batch)| < MAX_PENDING ==> batch == old(batch) + {d} && budget == old(budget)
      ensures res.Ok? ==> d in batch
      ensures res.Err? ==> res.error == Stopped && budget == 0
    {
      if d in batch {
        return Ok(Done);
      }
      if |batch| >= MAX_PENDING {
        var _ :- Flush();
      }
      batch := batch + {d};
      StillSound();
      return Ok(Done);
    }

    method RecordPath(item: Item) returns (res: Result<Unit, Interruption>)
      requires Sound() && item in visible && |batch| <= MAX_PENDING
      modifies this
      ensures Sound() && Kept() && visible == old(visible) && Spare() >= old(Spare()) - |path(item)|
      ensures NothingForFree() && budget <= old(budget) && |batch| <= MAX_PENDING
      ensures res.Ok? ==> Covered(item)
      ensures res.Err? ==> res.error == Stopped && budget == 0
    {
      var todo := path(item);
      label start:
      while todo != {}
        invariant Sound() && Kept@start() && visible == old(visible)
        invariant NothingForFree@start() && budget <= old(budget) && |batch| <= MAX_PENDING
        invariant todo <= path(item) && Spare() >= old(Spare()) - |path(item)| + |todo|
        invariant forall d | (item, d) in unsynced :: d in batch || d in todo
        decreases todo
      {
        var d :| d in todo;
        label before:
        var _ :- Record(d);
        todo := todo - {d};
      }
      return Ok(Done);
    }

    // -------------------------------------------------------------- storing content

    /**
     Makes an item visible and covered. An item already there is only recorded again; one that
     is known to be durable is not even that.
     */
    method Store(item: Item, knownDurable: bool) returns (res: Result<Unit, Interruption>)
      requires Sound() && (knownDurable ==> Durable(item)) && |batch| <= MAX_PENDING
      modifies this
      ensures Sound() && Kept() && visible <= old(visible) + {item}
      ensures NothingForFree() && budget <= old(budget) && |batch| <= MAX_PENDING
      ensures Spare() >= old(Spare()) - (if knownDurable then 0 else |path(item)|)
      ensures res.Ok? ==> Covered(item)
      ensures res.Err? ==> res.error == Stopped && budget == 0
    {
      if item in visible && knownDurable {
        return Ok(Done);
      }
      if item !in visible {
        Link(item);
      }
      res := RecordPath(item);
    }

    /** Links the file of an item under its address; no directory on its path is synced by that. */
    method Link(item: Item)
      requires Sound() && item !in visible
      modifies this`unsynced, this`visible
      ensures Sound() && Kept() && visible == old(visible) + {item}
      ensures unsynced == (set link | link in old(unsynced) && link.0 != item) + (set d | d in path(item) :: (item, d))
      ensures old(unsynced) <= unsynced
    {
      unsynced := (set link | link in unsynced && link.0 != item) + (set d | d in path(item) :: (item, d));
      visible := visible + {item};
      StillSound();
    }

    method StoreAll(items: set<Item>, knownDurable: set<Item>, faults: Faults) returns (res: Result<Unit, Interruption>)
      requires Sound() && |batch| <= MAX_PENDING && forall item | item in knownDurable :: Durable(item)
      modifies this
      ensures Sound() && Kept() && visible <= old(visible) + items
      ensures NothingForFree() && budget <= old(budget) && |batch| <= MAX_PENDING
      ensures res == Err(Cancelled) ==> batch == {}
      ensures Spare() >= old(Spare()) - Sum(items - knownDurable, Lengths(path))
      ensures res.Ok? ==> forall item | item in items :: Covered(item)
      ensures res.Err? ==> (res.error == Stopped && budget == 0) || (res.error == Cancelled && faults.cancel)
    {
      var todo := items;
      label start:
      while todo != {}
        invariant todo <= items
        invariant Sound() && Kept@start() && visible <= old(visible) + items
        invariant NothingForFree@start() && budget <= old(budget) && |batch| <= MAX_PENDING
        invariant Spare() >= old(Spare()) - Sum(items - knownDurable, Lengths(path))
                                          + Sum(todo - knownDurable, Lengths(path))
        invariant forall item | item in knownDurable :: Durable(item)
        invariant forall item | item in items && item !in todo :: Covered(item)
        decreases todo
      {
        var cancelled := *;
        if faults.cancel && cancelled {
          var _ :- Flush();
          return Err(Cancelled);
        }
        var item :| item in todo;
        OneItemLess(todo, knownDurable, item);
        label before:
        var _ :- Store(item, item in knownDurable);
        todo := todo - {item};
      }
      return Ok(Done);
    }

    lemma OneItemLess(todo: set<Item>, known: set<Item>, item: Item)
      requires item in todo
      ensures Sum(todo - known, Lengths(path))
           == Sum(todo - {item} - known, Lengths(path)) + (if item in known then 0 else |path(item)|)
    {
      if item in known {
        assert todo - {item} - known == todo - known;
      } else {
        SumRemove(todo - known, item, Lengths(path));
        assert todo - {item} - known == todo - known - {item};
      }
    }

    lemma CostSplits(items: set<Item>, known: set<Item>, objects: set<Item>, chunks: set<Item>)
      requires objects + chunks == items && objects !! chunks
      ensures Cost(items - known, path) == Sum(objects - known, Lengths(path)) + Sum(chunks - known, Lengths(path)) + 1
    {
      SumSplit(items - known, objects - known, Lengths(path));
      assert items - known - (objects - known) == chunks - known;
    }

    lemma KnownCostsLess(items: set<Item>, known: set<Item>)
      ensures Cost(items - known, path) <= Cost(items, path)
    {
      SumSplit(items, items - known, Lengths(path));
    }

    // -------------------------------------------------------------- checkpoints

    /** Stores what a root refers to and syncs it; what is known to be durable is not looked at. */
    method StoreDurably(items: set<Item>, known: set<Item>, faults: Faults) returns (res: Result<Unit, Interruption>)
      requires Sound() && batch == {} && forall item | item in known :: Durable(item)
      modifies this
      ensures Sound() && Kept() && visible <= old(visible) + items && NothingForFree() && budget <= old(budget)
      ensures res == Err(Cancelled) ==> batch == {}
      ensures res.Ok? ==> batch == {} && forall item | item in items :: Durable(item)
      ensures res.Err? ==> (res.error == Stopped && budget == 0) || (res.error == Cancelled && faults.cancel)
      ensures Spare() + Cost(items - known, path) > old(Spare())
    {
      var objects := set item | item in items && item.Object?;
      var chunks := set item | item in items && item.ChunkFile?;
      CostSplits(items, known, objects, chunks);
      label start:
      var _ :- StoreAll(objects, known, faults);
      KeptItems@start(known);
      assert forall item | item in known :: old@start(Durable(item));
      label objectsStored:
      var _ :- StoreAll(chunks, known, faults);
      KeptItems@objectsStored(objects);
      assert forall item | item in items :: Covered(item);
      label chunksStored:
      res := Flush();
      KeptItems@chunksStored(items);
    }

    /**
     Stores what `id` refers to, syncs, reads the new objects back, then publishes the root and
     syncs its directory. What the parent refers to counts as durable without looking. It fails
     only if its process stops, somebody cancels or the content does not read back.
     */
    method CreateCheckpoint(id: SnapshotId, parent: Option<SnapshotId>, faults: Faults)
      returns (res: Result<Unit, Interruption>)
      requires Sound() && (parent.Some? ==> parent.value in roots)
      modifies this
      ensures Sound()
      ensures roots == old(roots) + {id} || (res.Err? && roots == old(roots))
      ensures res.Ok? ==> id !in loose && id !in lingering
      ensures res.Err? && id in roots && id !in old(roots) ==> id in loose
      ensures lingering <= old(lingering) && loose <= old(loose) + ({id} - old(roots))
      ensures old(visible) <= visible <= old(visible) + needs(id)
      ensures id in roots && id !in old(roots) ==> forall item | item in needs(id) :: Durable(item)
      ensures res.Err? ==> match res.error
        case Stopped => budget == 0
        case Cancelled => faults.cancel
        case ReadbackFailed => faults.readback
      ensures old(budget) <= budget + Cost(needs(id) - (if parent.Some? then needs(parent.value) else {}), path)
    {
      hide Durable;
      batch := {};
      var known := if parent.Some? then needs(parent.value) else {};
      KnownIsDurable(parent);
      var _ :- StoreDurably(needs(id), known, faults);
      var readbackFails := *;
      if faults.readback && readbackFails {
        return Err(ReadbackFailed);
      }
      res := Publish(id);
    }

    lemma KnownIsDurable(parent: Option<SnapshotId>)
      requires Sound() && (parent.Some? ==> parent.value in roots)
      ensures parent.Some? ==> forall item | item in needs(parent.value) :: Durable(item)
    {
    }

    method Publish(id: SnapshotId) returns (res: Result<Unit, Interruption>)
      requires Sound() && forall item | item in needs(id) :: Durable(item)
      modifies this
      ensures Sound() && roots == old(roots) + {id} && visible == old(visible) && lingering <= old(lingering)
      ensures loose <= old(loose) + ({id} - old(roots)) && id !in lingering
      ensures res.Ok? ==> id !in loose && Spare() >= old(Spare()) - 1
      ensures res.Err? ==> res.error == Stopped && budget == 0 && Spare() == old(Spare())
      ensures res.Err? && id !in old(roots) ==> id in loose
      ensures forall item | item in needs(id) :: Durable(item)
    {
      loose := loose + ({id} - roots);
      roots, lingering := roots + {id}, lingering - {id};
      forall r, item | r in roots + lingering && item in needs(r)
        ensures Durable(item)
      {
        assert old(Durable(item));
      }
      label published:
      res := SyncOne(home(id));
      KeptItems@published(needs(id));
    }

    /** Deleting a checkpoint unlinks its root and syncs the directory, unless the process stops in between. */
    method DeleteCheckpoint(id: SnapshotId) returns (res: Result<Unit, Interruption>)
      requires Sound()
      modifies this
      ensures Sound() && roots == old(roots) - {id} && visible == old(visible) && loose <= old(loose)
      ensures res.Ok? <==> id !in old(roots) || old(budget) > 0
      ensures res.Err? ==> lingering == old(lingering) + {id}
      ensures res.Ok? ==> lingering == set r | r in old(lingering) && (id in old(roots) ==> home(r) != home(id))
    {
      if id !in roots {
        return Ok(Done);
      }
      roots, lingering, loose := roots - {id}, lingering + {id}, loose - {id};
      forall r, item | r in roots + lingering && item in needs(r)
        ensures Durable(item)
      {
        assert old(Durable(item));
      }
      res := SyncOne(home(id));
    }

    /**
     Garbage collection removes items no published root needs. It does not look at roots that are
     gone, and that is harmless exactly as long as their unlink is durable or they lose nothing.
     */
    method Sweep(dead: set<Item>)
      requires Sound()
      requires forall r, item | r in roots && item in needs(r) :: item !in dead
      modifies this`visible
      ensures visible == old(visible) - dead
      ensures Sound() <==> forall r, item | r in lingering && item in needs(r) :: item !in dead
    {
      visible := visible - dead;
      forall item: Item
        ensures Durable(item) <==> old(Durable(item)) && item !in dead
      {
      }
    }

    /** What the published roots need. */
    ghost function Needed(): set<Item>
      reads this`roots
    {
      set r, item | r in roots && item in needs(r) :: item
    }

    /** Garbage collection of these candidates; reports what it took from a lingering root, if anything. */
    method Collect(candidates: set<Item>) returns (harm: Option<(SnapshotId, Item)>)
      requires Sound()
      modifies this`visible
      ensures harm.None? ==> Sound()
      ensures harm.Some? ==>
        && harm.value.0 in lingering && harm.value.1 in needs(harm.value.0)
        && harm.value.1 in candidates && harm.value.1 !in visible
      ensures AllComplete(visible, roots) && visible == old(visible) - (candidates - old(Needed()))
    {
      var needed := set r, item | r in roots && item in needs(r) :: item;
      var dead := candidates - needed;
      Sweep(dead);
      forall r, item | r in roots && item in needs(r)
        ensures item in visible
      {
        assert old(Durable(item)) && item in needed;
      }
      if r, item :| r in lingering && item in needs(r) && item in dead {
        return Some((r, item));
      }
      return None;
    }

    /** Loses the given items and roots as far as they were not durable. */
    method Crash(lost: set<Item>, lostRoots: set<SnapshotId>)
      requires Sound()
      modifies this
      ensures Sound() && lingering == {} && loose == {}
      ensures roots == old(roots - loose) + (old(loose * roots + lingering) - lostRoots)
      ensures visible <= old(visible)
      ensures forall item | item in old(visible) :: item in visible <==> item !in lost || old(Durable(item))
    {
      var survivors :=
        set item | item in visible && (item !in lost || forall d | d in path(item) :: (item, d) !in unsynced);
      LosePower(survivors, (roots - loose) + ((loose * roots + lingering) - lostRoots));
    }

    /** Any crash image: links that were not durable may be gone, and lingering roots may be back. */
    method LosePower(survivors: set<Item>, remaining: set<SnapshotId>)
      requires Sound() && Image(survivors, remaining)
      modifies this
      ensures Sound() && roots == remaining && visible == survivors && lingering == {} && loose == {}
      ensures AllComplete(visible, roots)
    {
      visible, roots, lingering, loose, batch := survivors, remaining, {}, {}, {};
      forall r, item | r in roots && item in needs(r)
        ensures Durable(item)
      {
        assert old(Durable(item));
      }
    }
  }

  // ---------------------------------------------------------------- every run, every crash image

  datatype Event =
    | Create(id: SnapshotId, parent: Option<SnapshotId>, syncs: nat, faults: Faults)
    | Delete(id: SnapshotId, syncs: nat)
    | Sweep(candidates: set<Item>)
    | PowerLoss(lost: set<Item>, lostRoots: set<SnapshotId>)

  /** Everything ran, or a sweep took an item from a root that a power loss may bring back. */
  datatype Outcome = Complete | Harmed(at: nat, root: SnapshotId, item: Item)

  /** A deletion of `r` that stopped between the unlink and the sync is among the events. */
  ghost predicate StoppedDeleting(events: seq<Event>, r: SnapshotId) {
    exists e :: e in events && e == Delete(r, 0)
  }

  /** A creation of `r` is among the events. */
  ghost predicate Created(events: seq<Event>, r: SnapshotId) {
    exists e :: e in events && e.Create? && e.id == r
  }

  /** A creation of `r` that nothing hinders: nothing fails, and there are syncs for everything it needs. */
  ghost predicate Ample(needs: SnapshotId -> set<Item>, path: Item -> set<Directory>, e: Event, r: SnapshotId) {
    && e.Create? && e.id == r && e.faults == Faults(false, false)
    && e.syncs > Cost(needs(r), path)
  }

  /** Such a creation is among the events, and no deletion of its checkpoint after it. */
  ghost predicate Stands(needs: SnapshotId -> set<Item>, path: Item -> set<Directory>, events: seq<Event>,
                         r: SnapshotId)
  {
    exists i :: 0 <= i < |events| && Ample(needs, path, events[i], r) && NotDeleted(events, i + 1, r)
  }

  predicate NotDeleted(events: seq<Event>, from: nat, r: SnapshotId) {
    forall j | from <= j < |events| :: !(events[j].Delete? && events[j].id == r)
  }

  /** What stands after one more event stood before it, unless this event is its creation. */
  lemma StandsOn(needs: SnapshotId -> set<Item>, path: Item -> set<Directory>, events: seq<Event>, i: nat,
                 r: SnapshotId)
    requires i < |events| && Stands(needs, path, events[..i + 1], r)
    ensures Ample(needs, path, events[i], r) || !(events[i].Delete? && events[i].id == r)
    ensures Ample(needs, path, events[i], r) || Stands(needs, path, events[..i], r)
  {
    hide Ample;
    var longer, shorter := events[..i + 1], events[..i];
    var k :| 0 <= k < |longer| && Ample(needs, path, longer[k], r) && NotDeleted(longer, k + 1, r);
    assert longer[i] == events[i];
    if k < i {
      assert shorter[k] == longer[k];
      assert forall j | k < j < |shorter| :: shorter[j] == longer[j];
      assert NotDeleted(shorter, k + 1, r);
    }
  }

  lemma OneMoreEvent(events: seq<Event>, i: nat)
    requires i < |events|
    ensures forall r | StoppedDeleting(events[..i], r) || events[i] == Delete(r, 0) ::
      StoppedDeleting(events[..i + 1], r)
  {
    assert events[..i + 1] == events[..i] + [events[i]];
    assert events[i] in events[..i + 1];
    assert forall e | e in events[..i] :: e in events[..i + 1];
  }

  lemma CreatedOn(events: seq<Event>, i: nat, r: SnapshotId)
    requires i < |events|
    requires Created(events[..i], r) || (events[i].Create? && events[i].id == r)
    ensures Created(events[..i + 1], r)
  {
    assert events[..i + 1] == events[..i] + [events[i]];
    assert events[i] in events[..i + 1];
    assert forall e | e in events[..i] :: e in events[..i + 1];
  }

  /** One event; a sweep that takes an item from a lingering root says which. */
  method Apply(storage: Storage, event: Event) returns (harm: Option<(SnapshotId, Item)>)
    requires storage.Sound()
    modifies storage
    ensures harm.None? ==> storage.Sound()
    ensures harm.Some? ==>
      && event.Sweep? && harm.value.1 in event.candidates && storage.lingering == old(storage.lingering)
      && harm.value.0 in storage.lingering && harm.value.1 in storage.needs(harm.value.0)
      && harm.value.1 !in storage.visible && storage.AllComplete(storage.visible, storage.roots)
    ensures forall r | r in storage.roots + storage.lingering ::
      r in old(storage.roots) + old(storage.lingering) || (event.Create? && event.id == r)
    ensures forall r | r in storage.lingering :: r in old(storage.lingering) || event == Delete(r, 0)
    ensures event.Delete? ==> event.id !in storage.roots
    ensures event.Delete? && event.id in old(storage.roots) && event.syncs == 0 ==> event.id in storage.lingering
    ensures event.Sweep? ==> storage.visible == old(storage.visible) - (event.candidates - old(storage.Needed()))
    ensures event.PowerLoss? ==>
      && storage.lingering == {} && storage.loose == {} && storage.visible <= old(storage.visible)
      && storage.roots == old(storage.roots - storage.loose)
           + (old(storage.loose * storage.roots + storage.lingering) - event.lostRoots)
      && forall item | item in old(storage.visible) ::
           item in storage.visible <==> item !in event.lost || old(storage.Durable(item))
    ensures forall r | Ample(storage.needs, storage.path, event, r) :: r in storage.roots - storage.loose
    ensures forall r | r in old(storage.roots - storage.loose) && !(event.Delete? && event.id == r) ::
      r in storage.roots - storage.loose
  {
    match event {
      case Create(id, parent, syncs, faults) =>
        storage.budget := syncs;
        var known := if parent.Some? && parent.value in storage.roots then parent else None;
        ghost var free := if known.Some? then storage.needs(known.value) else {};
        storage.KnownCostsLess(storage.needs(id), free);
        var _ := storage.CreateCheckpoint(id, known, faults);
      case Delete(id, syncs) =>
        storage.budget := syncs;
        var _ := storage.DeleteCheckpoint(id);
      case Sweep(candidates) =>
        harm := storage.Collect(candidates);
        return;
      case PowerLoss(lost, lostRoots) =>
        storage.Crash(lost, lostRoots);
    }
    return None;
  }

  /**
   Runs any events: creations and deletions that stop anywhere, sweeps of unneeded items and power
   losses that take any links, and undo any unlinks, not yet durable. Whatever root is there or can
   come back is complete, up to the first sweep that removes an item of a root whose deletion stopped
   before its sync; after that sweep a power loss can bring this root back without the item.
   */
  method AnyRun(needs: SnapshotId -> set<Item>, path: Item -> set<Directory>, home: SnapshotId -> Directory,
                events: seq<Event>)
    returns (outcome: Outcome, roots: set<SnapshotId>, lingering: set<SnapshotId>, visible: set<Item>)
    ensures outcome.Complete? ==>
      forall r, item | r in roots + lingering && item in needs(r) :: item in visible
    ensures outcome.Harmed? ==>
      && outcome.at < |events| && events[outcome.at].Sweep? && outcome.item in events[outcome.at].candidates
      && outcome.root in lingering && outcome.item in needs(outcome.root) && outcome.item !in visible
      && StoppedDeleting(events[..outcome.at], outcome.root)
      && forall r, item | r in roots && item in needs(r) :: item in visible
    ensures forall r | r in roots + lingering :: Created(events, r)
    ensures outcome.Complete? ==>
      && (forall r | Stands(needs, path, events, r) :: r in roots)
      && (forall r | Withdrawn(events, r) && !StoppedDeleting(events, r) :: r !in roots + lingering)
  {
    hide StoppedDeleting, Created, Stands, Ample, Withdrawn, NotCreated;
    var storage := new Storage(needs, path, home);
    NothingStands(needs, path);
    assert events[..0] == [];
    for i := 0 to |events|
      invariant fresh(storage) && storage.Sound()
      invariant forall r | r in storage.roots + storage.lingering :: Created(events[..i], r)
      invariant forall r | r in storage.lingering :: StoppedDeleting(events[..i], r)
      invariant storage.needs == needs && storage.path == path
      invariant forall r | Stands(needs, path, events[..i], r) :: r in storage.roots - storage.loose
      invariant forall r | Withdrawn(events[..i], r) && !StoppedDeleting(events[..i], r) ::
        r !in storage.roots + storage.lingering
    {
      ghost var firm, known := storage.roots - storage.loose, storage.roots + storage.lingering;
      assert forall r | r in known :: Created(events[..i], r);
      OneMoreEvent(events, i);
      var harm := Apply(storage, events[i]);
      forall r | r in storage.roots + storage.lingering
        ensures Created(events[..i + 1], r)
      {
        assert r in known ==> Created(events[..i], r);
        CreatedOn(events, i, r);
      }
      if harm.Some? {
        CreatedBefore(events, i + 1);
        return Harmed(i, harm.value.0, harm.value.1), storage.roots, storage.lingering, storage.visible;
      }
      forall r | Stands(needs, path, events[..i + 1], r)
        ensures r in storage.roots - storage.loose
      {
        StandsOn(needs, path, events, i, r);
        assert Stands(needs, path, events[..i], r) ==> r in firm;
      }
      forall r | Withdrawn(events[..i + 1], r) && !StoppedDeleting(events[..i + 1], r)
        ensures r !in storage.roots + storage.lingering
      {
        WithdrawnBefore(events, i, r);
        NotItsCreation(events[i], r);
        assert Withdrawn(events[..i], r) ==> r !in known;
      }
    }
    assert events[..|events|] == events;
    StillVisible(storage);
    return Complete, storage.roots, storage.lingering, storage.visible;
  }

  /** A deletion of `r` is among the events, and no creation of it after that. */
  ghost predicate Withdrawn(events: seq<Event>, r: SnapshotId) {
    exists i :: 0 <= i < |events| && events[i].Delete? && events[i].id == r && NotCreated(events, i + 1, r)
  }

  predicate NotCreated(events: seq<Event>, from: nat, r: SnapshotId) {
    forall j | from <= j < |events| :: !(events[j].Create? && events[j].id == r)
  }

  lemma WithdrawnBefore(events: seq<Event>, i: nat, r: SnapshotId)
    requires i < |events| && Withdrawn(events[..i + 1], r)
    ensures (events[i].Delete? && events[i].id == r) || (Withdrawn(events[..i], r) && NotCreated([events[i]], 0, r))
    ensures StoppedDeleting(events[..i], r) || events[i] == Delete(r, 0) ==> StoppedDeleting(events[..i + 1], r)
  {
    OneMoreEvent(events, i);
    var longer, shorter := events[..i + 1], events[..i];
    var k :| 0 <= k < |longer| && longer[k].Delete? && longer[k].id == r && NotCreated(longer, k + 1, r);
    assert longer[i] == events[i];
    if k < i {
      assert shorter[k] == longer[k];
      assert forall j | k < j < |shorter| :: shorter[j] == longer[j];
      assert NotCreated(shorter, k + 1, r);
    }
  }

  lemma NotItsCreation(e: Event, r: SnapshotId)
    ensures NotCreated([e], 0, r) <==> !(e.Create? && e.id == r)
  {
    assert [e][0] == e;
  }

  lemma NothingStands(needs: SnapshotId -> set<Item>, path: Item -> set<Directory>)
    ensures forall r :: !Stands(needs, path, [], r) && !Withdrawn([], r)
  {
  }

  lemma CreatedBefore(events: seq<Event>, i: nat)
    requires i <= |events|
    ensures forall r | Created(events[..i], r) :: Created(events, r)
  {
    assert forall e | e in events[..i] :: e in events;
  }

  lemma StillVisible(storage: Storage)
    requires storage.Sound()
    ensures storage.AllComplete(storage.visible, storage.roots + storage.lingering)
  {
    forall r, item | r in storage.roots + storage.lingering && item in storage.needs(r)
      ensures item in storage.visible
    {
      assert storage.Durable(item);
    }
  }
}
