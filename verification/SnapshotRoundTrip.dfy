/**
 Creating a snapshot and loading it again (storage/snapshot_store.rs). The file list is checked, its
 manifest is built and stored; loading validates the manifest and sorts its entries by path. The list
 comes back unchanged exactly when the chunks of the manifest fit into a validation cache, which
 creation does not ask for.
 */
module SnapshotRoundTrip {
  import opened Outcomes
  import opened Sorting
  import opened PathOrder
  import opened Manifests
  import opened Snapshots
  import opened ManifestShape
  import opened ManifestValidation
  import opened ManifestBuild
  import opened ReferenceWalk
  import opened SnapshotLoading

  /** A root file and the chunks to be stored before it is published. */
  datatype Prepared = Prepared(root: SnapshotRoot, chunks: Store)

  lemma {:induction false} PathsAreOrdered(files: seq<Entry>, i: nat, j: nat)
    requires InPathOrder(files) && i < j < |files|
    ensures Less(files[i].path, files[j].path)
  {
    if i + 1 < j {
      PathsAreOrdered(files, i, j - 1);
      Transitive(files[i].path, files[j - 1].path, files[j].path);
    }
  }

  /** Files in path order are all different. */
  lemma PathsTellApart(files: seq<Entry>, i: nat, j: nat)
    requires InPathOrder(files) && i < |files| && j < |files| && files[i].path == files[j].path
    ensures i == j
  {
    hide InPathOrder;
    Irreflexive(files[i].path);
    if i < j {
      PathsAreOrdered(files, i, j);
    } else if j < i {
      PathsAreOrdered(files, j, i);
    }
  }

  /** A list in path order is determined by its members. */
  lemma {:induction false} OneOrder(a: seq<Entry>, b: seq<Entry>)
    requires InPathOrder(a) && InPathOrder(b) && multiset(a) == multiset(b)
    ensures a == b
  {
    hide InPathOrder;
    assert |multiset(a)| == |a| && |multiset(b)| == |b|;
    if a != [] {
      SameMembers(a, b);
      SameFirst(a, b);
      WithoutFirst(a);
      WithoutFirst(b);
      OneOrder(a[1..], b[1..]);
    }
  }

  lemma WithoutFirst(files: seq<Entry>)
    requires InPathOrder(files) && files != []
    ensures InPathOrder(files[1..]) && files == [files[0]] + files[1..]
    ensures multiset(files[1..]) == multiset(files) - multiset{files[0]}
  {
    assert files == [files[0]] + files[1..];
  }

  lemma SameFirst(a: seq<Entry>, b: seq<Entry>)
    requires InPathOrder(a) && InPathOrder(b) && a != [] && b != [] && forall e :: e in a <==> e in b
    ensures a[0] == b[0]
  {
    hide InPathOrder;
    assert a[0] in a && b[0] in b;
    var i :| 0 <= i < |b| && b[i] == a[0];
    var j :| 0 <= j < |a| && a[j] == b[0];
    if i > 0 && j > 0 {
      PathsAreOrdered(b, 0, i);
      PathsAreOrdered(a, 0, j);
      NotBoth(a[0].path, b[0].path);
    }
  }

  // ---------------------------------------------------------------- a checked list can be ordered by key

  lemma KeyOrderIsWeak(rules: ManifestRules)
    ensures IsWeakOrder((a: Entry, b: Entry) => KeyBefore(rules.key, a, b))
  {
    forall a: Entry, b: Entry | KeyBefore(rules.key, a, b)
      ensures !KeyBefore(rules.key, b, a)
    {
      NotBoth(rules.key(a.path), rules.key(b.path));
    }
    forall a: Entry, b: Entry, c: Entry | KeyBefore(rules.key, a, c) && !KeyBefore(rules.key, a, b)
      ensures KeyBefore(rules.key, b, c)
    {
      Total(rules.key(a.path), rules.key(b.path));
      if Less(rules.key(b.path), rules.key(a.path)) {
        Transitive(rules.key(b.path), rules.key(a.path), rules.key(c.path));
      }
    }
  }

  lemma ByKeyPermutes(files: seq<Entry>, rules: ManifestRules)
    ensures multiset(ByKey(files, rules)) == multiset(files) && |ByKey(files, rules)| == |files|
    ensures forall i, j | 0 <= i < j < |ByKey(files, rules)| ::
      !KeyBefore(rules.key, ByKey(files, rules)[j], ByKey(files, rules)[i])
  {
    var before := (a: Entry, b: Entry) => KeyBefore(rules.key, a, b);
    KeyOrderIsWeak(rules);
    SortSorts(files, before);
    var entries := ByKey(files, rules);
    assert |multiset(entries)| == |multiset(files)|;
    forall i, j | 0 <= i < j < |entries|
      ensures !KeyBefore(rules.key, entries[j], entries[i])
    {
      assert !before(entries[j], entries[i]);
    }
  }

  /** The checks on a file list are all that building asks of its order. */
  lemma FineListIsOrdered(files: seq<Entry>, rules: ManifestRules, dated: Instant -> bool)
    requires FilesFine(files, rules.key, dated)
    ensures Ordered(Keys(ByKey(files, rules), rules.key)) && NoAncestors(Keys(ByKey(files, rules), rules.key))
  {
    hide NoAncestors, AllDated, ByKey, InPathOrder, Less;
    var entries := ByKey(files, rules);
    ByKeyPermutes(files, rules);
    SameMembers(entries, files);
    AncestorsByEntry(files, rules.key);
    AncestorsByEntry(entries, rules.key);
    var keys := Keys(entries, rules.key);
    forall i, j | 0 <= i < j < |keys|
      ensures Less(keys[i], keys[j])
    {
      Total(keys[i], keys[j]);
      KeysStayApart(files, entries, rules.key, i, j);
    }
    NoAncestorsMeans(keys);
  }

  lemma NoAncestorsMeans(keys: seq<string>)
    requires NoAncestors(keys)
    ensures forall i | 0 < i < |keys| :: !IsPathAncestor(keys[i - 1], keys[i])
  {
  }

  lemma KeysStayApart(files: seq<Entry>, entries: seq<Entry>, key: string -> string, i: nat, j: nat)
    requires InPathOrder(files) && OnePathPerKey(files, key) && multiset(entries) == multiset(files)
    requires i < j < |entries|
    ensures key(entries[i].path) != key(entries[j].path)
  {
    hide InPathOrder;
    SameMembers(entries, files);
    assert entries[i] in files && entries[j] in files;
    var k :| 0 <= k < |files| && files[k] == entries[i];
    var l :| 0 <= l < |files| && files[l] == entries[j];
    Once(files, k);
    if entries[i].path == entries[j].path {
      PathsTellApart(files, k, l);
      Twice(entries, i, j);
    }
  }

  lemma Twice(s: seq<Entry>, i: nat, j: nat)
    requires i < j < |s| && s[i] == s[j]
    ensures multiset(s)[s[i]] >= 2
  {
    assert s == s[..j] + s[j..];
    assert s[i] in s[..j] && s[j] in s[j..];
  }

  lemma Once(files: seq<Entry>, k: nat)
    requires InPathOrder(files) && k < |files|
    ensures multiset(files)[files[k]] == 1
  {
    hide InPathOrder;
    var a, b := files[..k], files[k + 1..];
    assert files == a + [files[k]] + b;
    forall i | 0 <= i < |files| && files[i] == files[k]
      ensures i == k
    {
      PathsTellApart(files, i, k);
    }
    assert files[k] !in a && files[k] !in b;
  }

  // ---------------------------------------------------------------- there and back

  /** Checks a file list and builds its manifest. */
  method PrepareSnapshot(files: seq<Entry>, rules: ManifestRules, address: Addresses, dated: Instant -> bool)
    returns (res: Option<Prepared>)
    requires Injective(address)
    ensures var entries := ByKey(files, rules);
      && (res.Some? <==>
          && FilesFine(files, rules.key, dated) && TotalsFit(TotalsOf(entries, rules))
          && (entries == [] || ChunkFor(entries, rules, address, MAX_LEVELS).Some?))
      && (res.Some? ==>
          && OwnAddresses(res.value.chunks, address)
          && forall store | Extends(res.value.chunks, store) && AllEncode(store, rules) ::
               Genuine(store, rules, res.value.root) && Below(store, RootsOf(res.value.root)) == entries)
      && (res.Some? ==> res.value.root.Header? && res.value.root.ownProject)
  {
    hide FilesFine, Ordered, TotalsOf, ChunkFor, BuiltFrom, Injective, ByKey, Genuine, Below, Extends, AllEncode,
         OwnAddresses, PlainKeys, NoAncestors;
    var ok := ValidateSnapshotFile(files, rules.key, dated);
    if !ok {
      return None;
    }
    FineListIsOrdered(files, rules, dated);
    var built := BuildManifest(files, rules, address);
    if built.Err? {
      return None;
    }
    var root := Header(built.value.root, true, built.value.totals);
    forall store | Extends(built.value.chunks, store) && AllEncode(store, rules)
      ensures Genuine(store, rules, root) && Below(store, RootsOf(root)) == ByKey(files, rules)
    {
      BuiltIsGenuine(store, rules, address, ByKey(files, rules), built.value, true);
    }
    return Some(Prepared(root, built.value.chunks));
  }

  lemma ChunksJoin(existing: Store, chunks: Store, address: Addresses)
    requires OwnAddresses(existing, address) && OwnAddresses(chunks, address)
    ensures Extends(chunks, existing + chunks) && OwnAddresses(existing + chunks, address)
  {
  }

  lemma CheckedListLoads(store: Store, rules: ManifestRules, files: seq<Entry>, rs: seq<ManifestRef>,
                         parses: string -> bool, dated: Instant -> bool)
    requires FilesFine(files, rules.key, dated) && Below(store, rs) == ByKey(files, rules)
    requires forall e | e in files :: parses(e.path)
    ensures PathsParse(store, rs, parses) && AllDated(Below(store, rs), dated)
      && NoAncestors(KeysBelow(store, rules, rs))
    ensures multiset(Below(store, rs)) == multiset(files) && InPathOrder(files)
  {
    hide NoAncestors, ByKey, Expansion, Ordered, InPathOrder, OnePathPerKey;
    ByKeyPermutes(files, rules);
    SameMembers(ByKey(files, rules), files);
    FineListIsOrdered(files, rules, dated);
    FineIsInOrder(files, rules.key, dated);
  }

  /**
   Creates a snapshot beside the chunks already stored and loads it. If every path parses, the same
   list comes back exactly when a validation cache may hold the chunks of the manifest.
   */
  method CreateAndLoad(files: seq<Entry>, rules: ManifestRules, address: Addresses, parses: string -> bool,
                       dated: Instant -> bool, existing: Store)
    returns (prepared: Option<Prepared>, loaded: Option<seq<Entry>>)
    requires Injective(address) && OwnAddresses(existing, address) && forall r :: rules.encodes(r)
    requires forall e | e in files :: parses(e.path)
    ensures prepared.None? ==> loaded.None?
    ensures prepared.Some? ==>
      var store := existing + prepared.value.chunks;
      && (loaded.Some? <==> Fits(rules, ChunksOf(store, RootsOf(prepared.value.root))))
      && (loaded.Some? ==> loaded.value == files)
  {
    hide Injective, OwnAddresses, Extends, Genuine, Fits, Below, FilesFine, ChunksOf, ByKey, ChunkFor, TotalsOf,
         PathsParse, AllDated, NoAncestors, KeysBelow, InPathOrder;
    prepared := PrepareSnapshot(files, rules, address, dated);
    if prepared.None? {
      return None, None;
    }
    var Prepared(root, chunks) := prepared.value;
    var store := existing + chunks;
    ChunksJoin(existing, chunks, address);
    CheckedListLoads(store, rules, files, RootsOf(root), parses, dated);
    loaded := LoadSnapshot(store, rules, root, parses, dated);
    if loaded.Some? {
      OneOrder(loaded.value, files);
    }
  }
}
