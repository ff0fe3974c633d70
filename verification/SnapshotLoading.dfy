/**
 Loading one snapshot as a list of files (storage/snapshot_store.rs). The manifest is validated with
 a fresh cache, its entries are streamed and sorted by path, and the list is checked once more.
 That last check sees more than validation does: every directory above every path, and the times.
 */
module SnapshotLoading {
  import opened Outcomes
  import opened Sequences
  import opened Sorting
  import opened PathOrder
  import opened Manifests
  import opened Snapshots
  import opened ManifestShape
  import opened ManifestValidation
  import opened ReferenceWalk

  // ---------------------------------------------------------------- specification

  ghost predicate AllRead(store: Store, rs: seq<ManifestRef>, usable: Entry -> bool) {
    forall e | e in Expansion(store, rs, MAX_LEVELS) :: usable(e)
  }

  /** No key is a directory of another, however far apart they are. */
  ghost predicate NoAncestors(keys: seq<string>) {
    forall i, j | 0 <= i < |keys| && 0 <= j < |keys| :: !IsPathAncestor(keys[i], keys[j])
  }

  /** Every time can be written down and read back. */
  ghost predicate AllDated(entries: seq<Entry>, dated: Instant -> bool) {
    forall e | e in entries :: dated(e.modified)
  }

  /** What loading asks of a manifest that validates. */
  ghost predicate Loadable(store: Store, rules: ManifestRules, s: SnapshotRoot, dated: Instant -> bool) {
    AllDated(Below(store, RootsOf(s)), dated) && NoAncestors(KeysBelow(store, rules, RootsOf(s)))
  }

  /** Some key is a directory of one that does not come right after it. */
  ghost predicate HasFarAncestor(keys: seq<string>) {
    exists i, j :: 0 <= i && i + 1 < j < |keys| && IsPathAncestor(keys[i], keys[j])
  }

  /** Ordered keys leave only such pairs to be found. */
  lemma OnlyFarAncestors(keys: seq<string>)
    requires Ordered(keys)
    ensures NoAncestors(keys) <==> !HasFarAncestor(keys)
  {
    if !NoAncestors(keys) {
      var i, j :| 0 <= i < |keys| && 0 <= j < |keys| && IsPathAncestor(keys[i], keys[j]);
      PrefixFirst(keys[i], keys[j]);
      if j <= i {
        Irreflexive(keys[i]);
        if j < i {
          Transitive(keys[i], keys[j], keys[i]);
        }
      }
      assert i + 1 != j;
    }
  }

  ghost predicate InPathOrder(files: seq<Entry>) {
    forall i | 0 < i < |files| :: Less(files[i - 1].path, files[i].path)
  }

  /** The checks on the sorted file list. */
  ghost predicate FilesFine(files: seq<Entry>, key: string -> string, dated: Instant -> bool) {
    && InPathOrder(files) && OnePathPerKey(files, key) && AllDated(files, dated) && NoAncestors(Keys(files, key))
  }

  ghost predicate OnePathPerKey(files: seq<Entry>, key: string -> string) {
    forall e, f | e in files && f in files && key(e.path) == key(f.path) :: e.path == f.path
  }

  /** The same as `NoAncestors`, entry by entry. */
  ghost predicate NoneAbove(entries: seq<Entry>, key: string -> string) {
    forall e, f | e in entries && f in entries :: !IsPathAncestor(key(e.path), key(f.path))
  }

  lemma AncestorsByEntry(entries: seq<Entry>, key: string -> string)
    ensures NoAncestors(Keys(entries, key)) <==> NoneAbove(entries, key)
  {
    var keys := Keys(entries, key);
    if NoAncestors(keys) {
      forall e, f | e in entries && f in entries
        ensures !IsPathAncestor(key(e.path), key(f.path))
      {
        var i :| 0 <= i < |entries| && entries[i] == e;
        var j :| 0 <= j < |entries| && entries[j] == f;
        assert keys[i] == key(e.path) && keys[j] == key(f.path);
      }
    }
    if NoneAbove(entries, key) {
      forall i, j | 0 <= i < |keys| && 0 <= j < |keys|
        ensures !IsPathAncestor(keys[i], keys[j])
      {
        assert entries[i] in entries && entries[j] in entries;
      }
    }
  }

  // ---------------------------------------------------------------- streaming

  /**
     Streams the entries of a manifest with an explicit stack, the next chunk first. On a validated
     manifest the stream is the naive expansion, in order.
   */
  method LoadEntries(store: Store, root: Option<ManifestRef>, usable: Entry -> bool)
    returns (res: Option<seq<Entry>>)
    ensures AllExpand(store, RootOf(root), MAX_LEVELS) && Distinct(AllVisits(store, RootOf(root), MAX_LEVELS)) ==>
      (res.Some? <==> AllRead(store, RootOf(root), usable))
    ensures AllExpand(store, RootOf(root), MAX_LEVELS) && res.Some? ==>
      res.value == Expansion(store, RootOf(root), MAX_LEVELS)
  {
    hide AllExpand, Readable, AllRead, Distinct;
    var pending := RootOf(root);
    var visited: set<ManifestRef> := {};
    var entries: seq<Entry> := [];
    ghost var before: seq<ManifestRef> := [];
    StreamBegins(store, RootOf(root));
    while pending != []
      invariant Streaming(store, RootOf(root), before, pending)
      invariant entries == Flatten(store, before) && visited == set c | c in before
      invariant forall e | e in entries :: usable(e)
      decreases store.Keys - visited, |pending|
    {
      var reference := pending[0];
      if reference in visited {
        StreamRepeats(store, RootOf(root), before, pending);
        return None;
      }
      StreamStep(store, RootOf(root), before, pending);
      if !Readable(store, reference) {
        return None;
      }
      if exists e :: e in Entries(store, reference) && !usable(e) {
        StreamBadEntry(store, RootOf(root), before, pending, usable);
        return None;
      }
      ReadableIsStored(store, reference);
      visited := visited + {reference};
      entries := entries + Entries(store, reference);
      FlattenConcat(store, before, [reference]);
      assert Flatten(store, [reference]) == Entries(store, reference) + [];
      before := before + [reference];
      pending := Children(store, reference) + pending[1..];
    }
    StreamEnds(store, RootOf(root), before, usable);
    return Some(entries);
  }

  lemma ReadableIsStored(store: Store, r: ManifestRef)
    requires Readable(store, r)
    ensures r in store.Keys
  {
  }

  /** What was streamed, followed by the walk of what is pending, is the whole walk. */
  ghost predicate Streaming(store: Store, rs: seq<ManifestRef>, before: seq<ManifestRef>, pending: seq<ManifestRef>) {
    AllExpand(store, rs, MAX_LEVELS) ==>
      && AllExpand(store, pending, MAX_LEVELS)
      && AllVisits(store, rs, MAX_LEVELS) == before + AllVisits(store, pending, MAX_LEVELS)
  }

  lemma StreamBegins(store: Store, rs: seq<ManifestRef>)
    ensures Streaming(store, rs, [], rs)
  {
  }

  lemma TopOfWalk(store: Store, r: ManifestRef, depth: nat)
    requires Expands(store, r, depth)
    ensures Readable(store, r) && AllExpand(store, Children(store, r), depth)
    ensures Visits(store, r, depth) == [r] + AllVisits(store, Children(store, r), depth)
  {
    DepthIrrelevant(store, Children(store, r), depth - 1, depth);
  }

  lemma WalkConcat(store: Store, r: ManifestRef, rest: seq<ManifestRef>, depth: nat)
    ensures AllVisits(store, [r] + rest, depth) == Visits(store, r, depth) + AllVisits(store, rest, depth)
  {
    assert ([r] + rest)[1..] == rest;
  }

  /** The walk of a stack is its top, then the walk of the stack that replaces it. */
  lemma StackWalk(store: Store, pending: seq<ManifestRef>)
    requires AllExpand(store, pending, MAX_LEVELS) && pending != []
    ensures Readable(store, pending[0])
    ensures AllExpand(store, Children(store, pending[0]) + pending[1..], MAX_LEVELS)
    ensures AllVisits(store, pending, MAX_LEVELS)
         == [pending[0]] + AllVisits(store, Children(store, pending[0]) + pending[1..], MAX_LEVELS)
  {
    hide Expands, Visits, AllVisits, Readable, Children;
    var c, rest := pending[0], pending[1..];
    assert Expands(store, c, MAX_LEVELS);
    TopOfWalk(store, c, MAX_LEVELS);
    AllVisitsConcat(store, Children(store, c), rest, MAX_LEVELS);
    assert pending == [c] + rest;
    WalkConcat(store, c, rest, MAX_LEVELS);
  }

  lemma StreamStep(store: Store, rs: seq<ManifestRef>, before: seq<ManifestRef>, pending: seq<ManifestRef>)
    requires Streaming(store, rs, before, pending) && pending != []
    ensures AllExpand(store, rs, MAX_LEVELS) ==> Readable(store, pending[0])
    ensures Streaming(store, rs, before + [pending[0]], Children(store, pending[0]) + pending[1..])
  {
    hide AllExpand;
    if AllExpand(store, rs, MAX_LEVELS) {
      StackWalk(store, pending);
      var after := AllVisits(store, Children(store, pending[0]) + pending[1..], MAX_LEVELS);
      assert before + ([pending[0]] + after) == (before + [pending[0]]) + after;
    }
  }

  lemma StreamRepeats(store: Store, rs: seq<ManifestRef>, before: seq<ManifestRef>, pending: seq<ManifestRef>)
    requires Streaming(store, rs, before, pending) && pending != [] && pending[0] in before
    ensures !(AllExpand(store, rs, MAX_LEVELS) && Distinct(AllVisits(store, rs, MAX_LEVELS)))
  {
    if AllExpand(store, rs, MAX_LEVELS) {
      var visits := AllVisits(store, rs, MAX_LEVELS);
      var i :| 0 <= i < |before| && before[i] == pending[0];
      StackWalk(store, pending);
      assert visits[i] == before[i] && visits[|before|] == pending[0];
    }
  }

  lemma StreamBadEntry(store: Store, rs: seq<ManifestRef>, before: seq<ManifestRef>, pending: seq<ManifestRef>,
                       usable: Entry -> bool)
    requires Streaming(store, rs, before, pending) && pending != []
    requires exists e :: e in Entries(store, pending[0]) && !usable(e)
    ensures AllExpand(store, rs, MAX_LEVELS) ==> !AllRead(store, rs, usable)
  {
    if AllExpand(store, rs, MAX_LEVELS) {
      StackWalk(store, pending);
      assert AllVisits(store, rs, MAX_LEVELS)[|before|] == pending[0];
      VisitedEntries(store, rs, MAX_LEVELS, pending[0]);
    }
  }

  lemma StreamEnds(store: Store, rs: seq<ManifestRef>, before: seq<ManifestRef>, usable: Entry -> bool)
    requires Streaming(store, rs, before, [])
    requires forall e | e in Flatten(store, before) :: usable(e)
    ensures AllExpand(store, rs, MAX_LEVELS) ==>
      Flatten(store, before) == Expansion(store, rs, MAX_LEVELS) && AllRead(store, rs, usable)
  {
    assert before + AllVisits(store, [], MAX_LEVELS) == before;
  }

  // ---------------------------------------------------------------- the file list

  predicate PathBefore(a: Entry, b: Entry) {
    Less(a.path, b.path)
  }

  lemma PathBeforeIsWeakOrder()
    ensures IsWeakOrder(PathBefore)
  {
    forall a: Entry, b: Entry | PathBefore(a, b)
      ensures !PathBefore(b, a)
    {
      Irreflexive(a.path);
      if Less(b.path, a.path) {
        Transitive(a.path, b.path, a.path);
      }
    }
    forall a: Entry, b: Entry, c: Entry | PathBefore(a, c) && !PathBefore(a, b)
      ensures PathBefore(b, c)
    {
      Total(a.path, b.path);
      if Less(b.path, a.path) {
        Transitive(b.path, a.path, c.path);
      }
    }
  }

  /** Looks for the directories of `key` among the keys. */
  method HasAncestor(key: string, keys: set<string>) returns (found: bool)
    ensures found <==> exists a :: a in keys && IsPathAncestor(a, key)
  {
    for i := 0 to |key|
      invariant forall a | a in keys && IsPathAncestor(a, key) :: |a| >= i
    {
      if key[i] == '/' && key[..i] in keys {
        assert IsPathAncestor(key[..i], key);
        return true;
      }
      assert forall a | a in keys && IsPathAncestor(a, key) && |a| == i :: a == key[..i];
    }
    return false;
  }

  /** Paths increase strictly. */
  method PathsIncrease(files: seq<Entry>) returns (ok: bool)
    ensures ok <==> InPathOrder(files)
  {
    if files == [] {
      return true;
    }
    for i := 1 to |files|
      invariant forall k | 0 < k < i :: Less(files[k - 1].path, files[k].path)
    {
      Total(files[i - 1].path, files[i].path);
      if files[i - 1].path == files[i].path {
        Irreflexive(files[i].path);
        return false;
      }
      if Less(files[i].path, files[i - 1].path) {
        NotBoth(files[i].path, files[i - 1].path);
        return false;
      }
    }
    return true;
  }

  lemma NotBoth(a: string, b: string)
    requires Less(a, b)
    ensures !Less(b, a)
  {
    Irreflexive(a);
    if Less(b, a) {
      Transitive(a, b, a);
    }
  }

  /** Paths of one key and the key sets seen so far. */
  ghost predicate Indexed(portable: map<string, string>, files: seq<Entry>, key: string -> string) {
    && (forall f | f in files :: key(f.path) in portable && portable[key(f.path)] == f.path)
    && (forall k | k in portable :: exists f :: f in files && key(f.path) == k)
  }

  /** Enters every file under its key; two paths under one key, or a time out of range, end it. */
  method IndexKeys(files: seq<Entry>, key: string -> string, dated: Instant -> bool)
    returns (res: Option<map<string, string>>)
    ensures res.Some? <==> AllDated(files, dated) && OnePathPerKey(files, key)
    ensures res.Some? ==> Indexed(res.value, files, key)
  {
    hide Indexed, OnePathPerKey, AllDated;
    var portable: map<string, string> := map[];
    NothingIndexed(key, dated);
    assert files[..0] == [];
    for i := 0 to |files|
      invariant Indexed(portable, files[..i], key) && AllDated(files[..i], dated) && OnePathPerKey(files[..i], key)
    {
      var f := files[i];
      var k := key(f.path);
      assert files[..i + 1] == files[..i] + [f];
      OneMoreIndexed(portable, files[..i], key, dated, f);
      if (k in portable && portable[k] != f.path) || !dated(f.modified) {
        PartOfIndexed(files[..i + 1], files[i + 1..], key, dated);
        assert files[..i + 1] + files[i + 1..] == files;
        return None;
      }
      portable := portable[k := f.path];
    }
    assert files[..|files|] == files;
    return Some(portable);
  }

  lemma NothingIndexed(key: string -> string, dated: Instant -> bool)
    ensures Indexed(map[], [], key) && AllDated([], dated) && OnePathPerKey([], key)
  {
  }

  lemma OneMoreIndexed(portable: map<string, string>, files: seq<Entry>, key: string -> string, dated: Instant -> bool,
                       f: Entry)
    requires Indexed(portable, files, key) && AllDated(files, dated) && OnePathPerKey(files, key)
    ensures var k := key(f.path);
      && ((k in portable ==> portable[k] == f.path) <==> OnePathPerKey(files + [f], key))
      && (dated(f.modified) <==> AllDated(files + [f], dated))
      && (OnePathPerKey(files + [f], key) ==> Indexed(portable[k := f.path], files + [f], key))
  {
    var k, all := key(f.path), files + [f];
    assert f in all && forall g | g in files :: g in all;
    assert forall g | g in all :: g in files || g == f;
    if k in portable {
      var g :| g in files && key(g.path) == k;
    }
  }

  lemma PartOfIndexed(files: seq<Entry>, rest: seq<Entry>, key: string -> string, dated: Instant -> bool)
    requires !AllDated(files, dated) || !OnePathPerKey(files, key)
    ensures !AllDated(files + rest, dated) || !OnePathPerKey(files + rest, key)
  {
    assert forall g | g in files :: g in files + rest;
  }

  /** No indexed key is a directory of another. */
  method NoneIsAncestor(portable: map<string, string>) returns (ok: bool)
    ensures ok <==> forall a, k | a in portable && k in portable :: !IsPathAncestor(a, k)
  {
    var todo := portable.Keys;
    while todo != {}
      invariant todo <= portable.Keys
      invariant forall a, k | a in portable && k in portable.Keys - todo :: !IsPathAncestor(a, k)
    {
      var k :| k in todo;
      var found := HasAncestor(k, portable.Keys);
      if found {
        return false;
      }
      todo := todo - {k};
    }
    return true;
  }

  /** Everything a list of files is checked for after it is loaded. */
  method ValidateSnapshotFile(files: seq<Entry>, key: string -> string, dated: Instant -> bool) returns (ok: bool)
    ensures ok <==> FilesFine(files, key, dated)
  {
    ok := PathsIncrease(files);
    if !ok {
      return;
    }
    var portable := IndexKeys(files, key, dated);
    if portable.None? {
      return false;
    }
    IndexedAncestors(portable.value, files, key);
    ok := NoneIsAncestor(portable.value);
  }

  lemma IndexedAncestors(portable: map<string, string>, files: seq<Entry>, key: string -> string)
    requires Indexed(portable, files, key)
    ensures NoAncestors(Keys(files, key)) <==> forall a, k | a in portable && k in portable :: !IsPathAncestor(a, k)
  {
    AncestorsByEntry(files, key);
    if NoneAbove(files, key) {
      forall a, k | a in portable && k in portable
        ensures !IsPathAncestor(a, k)
      {
        var e :| e in files && key(e.path) == a;
        var f :| f in files && key(f.path) == k;
      }
    }
  }

  // ---------------------------------------------------------------- the list of a valid manifest

  lemma SameMembers<T>(a: seq<T>, b: seq<T>)
    requires multiset(a) == multiset(b)
    ensures forall x :: x in a <==> x in b
  {
    forall x: T
      ensures x in a <==> x in b
    {
      assert x in a <==> x in multiset(a);
      assert x in b <==> x in multiset(b);
    }
  }

  /** Increasing keys belong to entries that are all different, in key and in path. */
  lemma KeysTellApart(entries: seq<Entry>, key: string -> string, e: Entry, f: Entry)
    requires Increasing(Keys(entries, key)) && e in entries && f in entries && key(e.path) == key(f.path)
    ensures e == f
  {
    var i :| 0 <= i < |entries| && entries[i] == e;
    var j :| 0 <= j < |entries| && entries[j] == f;
    IncreasingMeansDistinct(Keys(entries, key), i, j);
  }

  lemma KeysMakeDistinct(entries: seq<Entry>, key: string -> string)
    requires Increasing(Keys(entries, key))
    ensures Distinct(entries)
  {
    forall i, j | 0 <= i < j < |entries|
      ensures entries[i] != entries[j]
    {
      if entries[i] == entries[j] {
        IncreasingMeansDistinct(Keys(entries, key), i, j);
      }
    }
  }

  /** On a manifest that validates the checks of the list come down to directories and times. */
  lemma FilesOfManifest(entries: seq<Entry>, key: string -> string, dated: Instant -> bool)
    requires Increasing(Keys(entries, key))
    ensures multiset(Sort(entries, PathBefore)) == multiset(entries)
    ensures FilesFine(Sort(entries, PathBefore), key, dated)
      <==> AllDated(entries, dated) && NoAncestors(Keys(entries, key))
  {
    hide Increasing, NoAncestors, NoneAbove, AllDated, PathBefore;
    var files := Sort(entries, PathBefore);
    PathBeforeIsWeakOrder();
    SortSorts(entries, PathBefore);
    SameMembers(files, entries);
    SortedStrictly(entries, files, key);
    AncestorsByEntry(files, key);
    AncestorsByEntry(entries, key);
    SameChecks(entries, files, key, dated);
    forall e, f | e in files && f in files && key(e.path) == key(f.path)
      ensures e.path == f.path
    {
      KeysTellApart(entries, key, e, f);
    }
  }

  lemma SortedStrictly(entries: seq<Entry>, files: seq<Entry>, key: string -> string)
    requires Increasing(Keys(entries, key)) && Sorted(files, PathBefore) && multiset(files) == multiset(entries)
    ensures InPathOrder(files)
  {
    hide Increasing, Less;
    KeysMakeDistinct(entries, key);
    DistinctCounts(entries);
    DistinctCounts(files);
    SameMembers(files, entries);
    forall i | 0 < i < |files|
      ensures Less(files[i - 1].path, files[i].path)
    {
      Total(files[i - 1].path, files[i].path);
      assert !PathBefore(files[i], files[i - 1]);
      if files[i - 1].path == files[i].path {
        assert files[i - 1] in files && files[i] in files;
        KeysTellApart(entries, key, files[i - 1], files[i]);
      }
    }
  }

  lemma SameChecks(a: seq<Entry>, b: seq<Entry>, key: string -> string, dated: Instant -> bool)
    requires forall e :: e in a <==> e in b
    ensures NoneAbove(a, key) <==> NoneAbove(b, key)
    ensures AllDated(a, dated) <==> AllDated(b, dated)
  {
  }

  /** What a fresh validator accepts can be streamed, and its keys tell its entries apart. */
  lemma AcceptedMeans(store: Store, rules: ManifestRules, s: SnapshotRoot)
    ensures Acceptable(store, rules, s)
       <==> Genuine(store, rules, s) && Fits(rules, {} + ChunksOf(store, RootsOf(s)))
    ensures Acceptable(store, rules, s) ==>
      && s.Header? && AllExpand(store, RootsOf(s), MAX_LEVELS) && Distinct(AllVisits(store, RootsOf(s), MAX_LEVELS))
      && Increasing(KeysBelow(store, rules, RootsOf(s)))
  {
    hide Fits, ChunksOf, AllExpand, Distinct, AllFine, Increasing, TotalsOf, KeysBelow;
    assert {} + ChunksOf(store, RootsOf(s)) == ChunksOf(store, RootsOf(s));
    if Acceptable(store, rules, s) {
      OrderedMeansDistinct(store, rules, RootsOf(s));
    }
  }

  /** Each entry on its own: the path parses and the time can be written. */
  lemma UsableMeans(store: Store, rs: seq<ManifestRef>, parses: string -> bool, dated: Instant -> bool,
                    usable: Entry -> bool)
    requires forall e :: usable(e) <==> parses(e.path) && dated(e.modified)
    ensures AllRead(store, rs, usable) <==> PathsParse(store, rs, parses) && AllDated(Below(store, rs), dated)
  {
  }

  lemma FineIsInOrder(files: seq<Entry>, key: string -> string, dated: Instant -> bool)
    requires FilesFine(files, key, dated)
    ensures InPathOrder(files)
  {
  }

  /** Loads one snapshot; none if anything is wrong with it. */
  method LoadSnapshot(store: Store, rules: ManifestRules, s: SnapshotRoot, parses: string -> bool,
                      dated: Instant -> bool)
    returns (res: Option<seq<Entry>>)
    ensures res.Some? <==> SnapshotHealthy(store, rules, s, parses) && Loadable(store, rules, s, dated)
    ensures res.Some? ==> InPathOrder(res.value) && multiset(res.value) == multiset(Below(store, RootsOf(s)))
  {
    hide Genuine, Fits, ChunksOf, AllExpand, Distinct, Increasing, AllRead, PathsParse, AllDated, NoAncestors,
         FilesFine, Acceptable, Expansion;
    AcceptedMeans(store, rules, s);
    if s.Damaged? {
      return None;
    }
    var validator := new ManifestValidator(rules);
    assert validator.cache.Keys == {};
    var validated := validator.ValidateManifest(store, s);
    if validated.Err? {
      return None;
    }
    var usable := (e: Entry) => parses(e.path) && dated(e.modified);
    UsableMeans(store, RootsOf(s), parses, dated, usable);
    var loaded := LoadEntries(store, s.manifest, usable);
    if loaded.None? {
      return None;
    }
    FilesOfManifest(loaded.value, rules.key, dated);
    var files := Sort(loaded.value, PathBefore);
    var ok := ValidateSnapshotFile(files, rules.key, dated);
    if !ok || !s.ownProject {
      return None;
    }
    FineIsInOrder(files, rules.key, dated);
    return Some(files);
  }
}
