/**
 The bounded first-in first-out cache of manifest chunks and the source that reads through it
 (storage/chunk_store.rs).
 */
module ChunkCache {
  import opened Outcomes
  import opened Manifests
  import opened Sequences

  type Bytes = seq<nat>

  const USIZE_MAX: nat := 0xFFFF_FFFF_FFFF_FFFF
  const DEFAULT_MANIFEST_CACHE_MAX_ENTRIES: nat := 4_096
  const DEFAULT_MANIFEST_CACHE_MAX_BYTES: nat := 64 * 1024 * 1024
  const MAX_MANIFEST_CHUNK_BYTES: nat := 1024 * 1024

  function SaturatingAdd(a: nat, b: nat): nat {
    if a + b > USIZE_MAX then USIZE_MAX else a + b
  }

  function SaturatingSub(a: nat, b: nat): nat {
    if b > a then 0 else a - b
  }

  function AtLeastOne(n: nat): nat {
    if n == 0 then 1 else n
  }

  /** What some chunks occupy together. */
  function Stored(order: seq<ManifestRef>, entries: map<ManifestRef, Bytes>): nat
    requires forall r | r in order :: r in entries
  {
    if order == [] then 0 else |entries[order[0]]| + Stored(order[1..], entries)
  }

  lemma {:induction false} StoredAgrees(order: seq<ManifestRef>, a: map<ManifestRef, Bytes>, b: map<ManifestRef, Bytes>)
    requires forall r | r in order :: r in a && r in b && a[r] == b[r]
    ensures Stored(order, a) == Stored(order, b)
  {
    if order != [] {
      StoredAgrees(order[1..], a, b);
    }
  }

  lemma {:induction false} StoredAppend(order: seq<ManifestRef>, r: ManifestRef, entries: map<ManifestRef, Bytes>)
    requires r in entries && forall x | x in order :: x in entries
    ensures Stored(order + [r], entries) == Stored(order, entries) + |entries[r]|
  {
    if order == [] {
      assert [] + [r] == [r] && [r][1..] == [];
    } else {
      StoredAppend(order[1..], r, entries);
      assert (order + [r])[1..] == order[1..] + [r];
    }
  }

  /** The queue lists exactly the stored chunks, each once, and the byte count is exact. */
  ghost predicate Exact(entries: map<ManifestRef, Bytes>, order: seq<ManifestRef>, totalBytes: nat) {
    && Distinct(order) && (forall r :: r in order <==> r in entries)
    && totalBytes == Stored(order, entries)
  }

  predicate Fits(count: nat, bytes: nat, maxEntries: nat, maxBytes: nat) {
    count <= maxEntries && bytes <= maxBytes
  }

  lemma {:induction false} CountsAreEqual(entries: map<ManifestRef, Bytes>, order: seq<ManifestRef>)
    requires Distinct(order) && forall r :: r in order <==> r in entries
    ensures |entries| == |order|
  {
    if order == [] {
      assert entries.Keys == {};
    } else {
      var r, rest := order[0], entries - {order[0]};
      assert forall x :: x in order[1..] <==> x in rest;
      CountsAreEqual(rest, order[1..]);
      assert entries.Keys == rest.Keys + {r};
    }
  }

  class ManifestChunkCache {
    var entries: map<ManifestRef, Bytes>
    var insertionOrder: seq<ManifestRef>
    var totalBytes: nat
    const maxEntries: nat
    const maxBytes: nat

    constructor (maxEntries: nat, maxBytes: nat)
      ensures Valid() && entries == map[]
      ensures this.maxEntries == AtLeastOne(maxEntries) && this.maxBytes == AtLeastOne(maxBytes)
    {
      this.entries, this.insertionOrder, this.totalBytes := map[], [], 0;
      this.maxEntries, this.maxBytes := AtLeastOne(maxEntries), AtLeastOne(maxBytes);
    }

    ghost predicate Valid()
      reads this
    {
      && maxEntries > 0 && maxBytes > 0
      && Exact(entries, insertionOrder, totalBytes) && Fits(|entries|, totalBytes, maxEntries, maxBytes)
    }

    function Get(r: ManifestRef): Option<Bytes>
      reads this
    {
      if r in entries then Some(entries[r]) else None
    }

    /**
     Stores a chunk and evicts the fewest oldest ones; the new chunk itself always survives. The
     stored bytes and the new ones are in memory together, so their sum is a machine size.
     */
    method Insert(r: ManifestRef, bytes: Bytes)
      requires Valid() && totalBytes + |bytes| <= USIZE_MAX
      modifies this
      ensures Valid()
      ensures |bytes| > maxBytes || r in old(entries) ==>
        entries == old(entries) && insertionOrder == old(insertionOrder) && totalBytes == old(totalBytes)
      ensures |bytes| <= maxBytes && r !in old(entries) ==>
        Inserted(old(entries), old(insertionOrder), r, bytes, entries, insertionOrder, maxEntries, maxBytes)
    {
      hide Exact, Evicting, Inserted;
      if |bytes| > maxBytes || r in entries {
        return;
      }
      ghost var entries0, order0 := entries, insertionOrder;
      Appended(entries, insertionOrder, totalBytes, r, bytes);
      totalBytes := SaturatingAdd(totalBytes, |bytes|);
      entries := entries[r := bytes];
      insertionOrder := insertionOrder + [r];
      ghost var evicted := 0;
      EvictionBegins(entries0, order0, r, bytes, entries, insertionOrder, totalBytes, maxEntries, maxBytes);
      while |entries| > maxEntries || totalBytes > maxBytes
        invariant Evicting(entries0, order0, r, bytes, entries, insertionOrder, totalBytes, maxEntries, maxBytes,
          evicted)
        invariant Exact(entries, insertionOrder, totalBytes)
        decreases |insertionOrder|
      {
        ghost var before, order, total := entries, insertionOrder, totalBytes;
        EvictionGoesOn(entries0, order0, r, bytes, before, order, total, maxEntries, maxBytes, evicted);
        EvictOldest();
        evicted := evicted + 1;
      }
      EvictionEnds(entries0, order0, r, bytes, entries, insertionOrder, totalBytes, maxEntries, maxBytes, evicted);
    }

    method EvictOldest()
      requires insertionOrder != [] && Exact(entries, insertionOrder, totalBytes)
      modifies this
      ensures Exact(entries, insertionOrder, totalBytes)
      ensures insertionOrder == old(insertionOrder)[1..] && entries == old(entries) - {old(insertionOrder)[0]}
    {
      hide Stored, Distinct;
      var oldest := insertionOrder[0];
      Evicted(entries, insertionOrder, totalBytes, entries - {oldest});
      insertionOrder := insertionOrder[1..];
      if oldest in entries {
        totalBytes := SaturatingSub(totalBytes, |entries[oldest]|);
        entries := entries - {oldest};
      }
    }
  }

  /** The queue from position `k` on breaks a limit. */
  ghost predicate Overfull(queue: seq<ManifestRef>, k: nat, all: map<ManifestRef, Bytes>, maxEntries: nat,
                           maxBytes: nat)
    requires k <= |queue| && forall x | x in queue :: x in all
  {
    assert forall x | x in queue[k..] :: x in queue;
    !Fits(|queue| - k, Stored(queue[k..], all), maxEntries, maxBytes)
  }

  /** The state after an accepted insert: the longest suffix of the queue within the limits. */
  ghost predicate Inserted(entries0: map<ManifestRef, Bytes>, order0: seq<ManifestRef>, r: ManifestRef, bytes: Bytes,
                           entries: map<ManifestRef, Bytes>, order: seq<ManifestRef>, maxEntries: nat, maxBytes: nat) {
    var queue, all := order0 + [r], entries0[r := bytes];
    && r in entries && entries[r] == bytes
    && (forall x | x in entries :: x in all && entries[x] == all[x])
    && (forall x | x in queue :: x in all)
    && exists k: nat ::
      k < |queue| && order == queue[k..] && forall j | 0 <= j < k :: Overfull(queue, j, all, maxEntries, maxBytes)
  }

  /** `k` chunks were evicted, each because the queue from it on broke a limit. */
  ghost predicate Evicting(entries0: map<ManifestRef, Bytes>, order0: seq<ManifestRef>, r: ManifestRef, bytes: Bytes,
                           entries: map<ManifestRef, Bytes>, order: seq<ManifestRef>, total: nat, maxEntries: nat,
                           maxBytes: nat, k: nat)
  {
    var queue, all := order0 + [r], entries0[r := bytes];
    && k < |queue| && order == queue[k..] && Exact(entries, order, total) && |bytes| <= maxBytes && maxEntries > 0
    && (forall x | x in entries :: x in all && entries[x] == all[x])
    && (forall x | x in queue :: x in all)
    && forall j | 0 <= j < k :: Overfull(queue, j, all, maxEntries, maxBytes)
  }

  lemma EvictionBegins(entries0: map<ManifestRef, Bytes>, order0: seq<ManifestRef>, r: ManifestRef, bytes: Bytes,
                       entries: map<ManifestRef, Bytes>, order: seq<ManifestRef>, total: nat, maxEntries: nat,
                       maxBytes: nat)
    requires entries == entries0[r := bytes] && order == order0 + [r] && Exact(entries, order, total)
    requires |bytes| <= maxBytes && maxEntries > 0
    ensures Evicting(entries0, order0, r, bytes, entries, order, total, maxEntries, maxBytes, 0)
  {
    assert order[0..] == order;
  }

  lemma EvictionGoesOn(entries0: map<ManifestRef, Bytes>, order0: seq<ManifestRef>, r: ManifestRef, bytes: Bytes,
                       entries: map<ManifestRef, Bytes>, order: seq<ManifestRef>, total: nat, maxEntries: nat,
                       maxBytes: nat, k: nat)
    requires Evicting(entries0, order0, r, bytes, entries, order, total, maxEntries, maxBytes, k)
    requires |entries| > maxEntries || total > maxBytes
    ensures order != []
    ensures forall rest: nat :: Exact(entries - {order[0]}, order[1..], rest) ==>
      Evicting(entries0, order0, r, bytes, entries - {order[0]}, order[1..], rest, maxEntries, maxBytes, k + 1)
  {
    hide Exact, Overfull;
    var queue, all := order0 + [r], entries0[r := bytes];
    OverfullNow(queue, k, entries, total, all, maxEntries, maxBytes);
    OnlyNewestFits(queue, k, r, bytes, all, maxEntries, maxBytes);
    assert order[1..] == queue[k + 1..];
  }

  lemma EvictionEnds(entries0: map<ManifestRef, Bytes>, order0: seq<ManifestRef>, r: ManifestRef, bytes: Bytes,
                     entries: map<ManifestRef, Bytes>, order: seq<ManifestRef>, total: nat, maxEntries: nat,
                     maxBytes: nat, k: nat)
    requires Evicting(entries0, order0, r, bytes, entries, order, total, maxEntries, maxBytes, k)
    ensures Inserted(entries0, order0, r, bytes, entries, order, maxEntries, maxBytes)
    ensures Exact(entries, order, total)
  {
    hide Overfull, Stored, Distinct;
    assert order[|order| - 1] == r;
  }

  lemma OverfullNow(queue: seq<ManifestRef>, k: nat, entries: map<ManifestRef, Bytes>, total: nat,
                    all: map<ManifestRef, Bytes>, maxEntries: nat, maxBytes: nat)
    requires k <= |queue| && Exact(entries, queue[k..], total) && !Fits(|entries|, total, maxEntries, maxBytes)
    requires (forall x | x in queue :: x in all) && forall x | x in entries :: x in all && entries[x] == all[x]
    ensures Overfull(queue, k, all, maxEntries, maxBytes)
  {
    SuffixIsStored(queue, k, entries, total, all);
  }

  lemma OnlyNewestFits(queue: seq<ManifestRef>, k: nat, r: ManifestRef, bytes: Bytes, all: map<ManifestRef, Bytes>,
                       maxEntries: nat, maxBytes: nat)
    requires k < |queue| && (forall x | x in queue :: x in all) && Overfull(queue, k, all, maxEntries, maxBytes)
    requires queue[|queue| - 1] == r && all[r] == bytes && |bytes| <= maxBytes && maxEntries > 0
    ensures k < |queue| - 1
  {
    assert k == |queue| - 1 ==> queue[k..] == [r];
    assert Stored([r], all) == |bytes| + Stored([], all);
  }

  lemma Evicted(before: map<ManifestRef, Bytes>, order: seq<ManifestRef>, total: nat, after: map<ManifestRef, Bytes>)
    requires order != [] && Exact(before, order, total) && after == before - {order[0]}
    ensures order[0] in before && |before[order[0]]| <= total && Exact(after, order[1..], total - |before[order[0]]|)
  {
    var rest := order[1..];
    assert forall x | x in rest :: x != order[0];
    assert forall x :: x in rest <==> x in after;
    StoredAgrees(rest, before, after);
  }

  lemma Appended(before: map<ManifestRef, Bytes>, order: seq<ManifestRef>, total: nat, r: ManifestRef, bytes: Bytes)
    requires Exact(before, order, total) && r !in before
    ensures Exact(before[r := bytes], order + [r], total + |bytes|)
  {
    var after := before[r := bytes];
    StoredAgrees(order, before, after);
    StoredAppend(order, r, after);
  }

  lemma SuffixIsStored(queue: seq<ManifestRef>, k: nat, entries: map<ManifestRef, Bytes>, total: nat,
                       all: map<ManifestRef, Bytes>)
    requires k <= |queue| && Exact(entries, queue[k..], total)
    requires (forall x | x in queue :: x in all) && forall x | x in entries :: x in all && entries[x] == all[x]
    ensures forall x | x in queue[k..] :: x in all
    ensures |entries| == |queue| - k && total == Stored(queue[k..], all)
  {
    CountsAreEqual(entries, queue[k..]);
    StoredAgrees(queue[k..], entries, all);
  }

  // ---------------------------------------------------------------- reading through the cache

  datatype ReadError = NotFound | TooLarge

  /** Reading a chunk file of an immutable store. */
  function ReadFile(files: map<ManifestRef, Bytes>, r: ManifestRef): Result<Bytes, ReadError> {
    if r !in files then Err(NotFound)
    else if |files[r]| > MAX_MANIFEST_CHUNK_BYTES then Err(TooLarge)
    else Ok(files[r])
  }

  function ReadAll(files: map<ManifestRef, Bytes>, rs: seq<ManifestRef>): (results: seq<Result<Bytes, ReadError>>)
    ensures |results| == |rs| && forall i | 0 <= i < |rs| :: results[i] == ReadFile(files, rs[i])
  {
    seq(|rs|, i requires 0 <= i < |rs| => ReadFile(files, rs[i]))
  }

  class RepositoryManifestSource {
    const files: map<ManifestRef, Bytes>
    const cache: ManifestChunkCache

    constructor (files: map<ManifestRef, Bytes>)
      ensures this.files == files && Valid() && fresh(cache)
    {
      this.files := files;
      this.cache := new ManifestChunkCache(DEFAULT_MANIFEST_CACHE_MAX_ENTRIES, DEFAULT_MANIFEST_CACHE_MAX_BYTES);
    }

    /** The cache is bounded by the defaults and never disagrees with the store. */
    ghost predicate Valid()
      reads this, cache
    {
      && cache.Valid() && cache.maxBytes == DEFAULT_MANIFEST_CACHE_MAX_BYTES
        && cache.maxEntries == DEFAULT_MANIFEST_CACHE_MAX_ENTRIES
      && forall r | r in cache.entries :: ReadFile(files, r) == Ok(cache.entries[r])
    }

    /** The answer of the store; what it gave is cached afterwards, and what is cached is left alone. */
    method Load(r: ManifestRef) returns (res: Result<Bytes, ReadError>)
      requires Valid()
      modifies cache
      ensures Valid() && res == ReadFile(files, r)
      ensures res.Ok? <==> r in files && |files[r]| <= MAX_MANIFEST_CHUNK_BYTES
      ensures res.Ok? ==> res.value == files[r] && r in cache.entries
      ensures res.Err? ==> (res.error.NotFound? <==> r !in files) && cache.entries == old(cache.entries)
      ensures r in old(cache.entries) ==>
        cache.entries == old(cache.entries) && cache.insertionOrder == old(cache.insertionOrder)
    {
      var cached := cache.Get(r);
      if cached.Some? {
        return Ok(cached.value);
      }
      res := ReadFile(files, r);
      if res.Ok? {
        cache.Insert(r, res.value);
      }
    }

    /** Any sequence of loads answers as the store itself would. */
    method LoadAll(rs: seq<ManifestRef>) returns (results: seq<Result<Bytes, ReadError>>)
      requires Valid()
      modifies cache
      ensures Valid() && results == ReadAll(files, rs)
    {
      results := [];
      for i := 0 to |rs|
        invariant Valid() && |results| == i && forall k | 0 <= k < i :: results[k] == ReadFile(files, rs[k])
      {
        var res := Load(rs[i]);
        results := results + [res];
      }
    }
  }
}
