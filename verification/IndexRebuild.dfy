/**
 Rebuilding the snapshot index from the snapshot roots (db.rs): every manifest is validated with
 one shared cache and its root entered and queued, then the queued roots are counted together. The
 tables are those the incremental index keeps.
 */
module IndexRebuild {
  import opened Outcomes
  import opened Sequences
  import opened Manifests
  import opened ObjectRefs
  import opened Snapshots
  import opened ManifestShape
  import opened ManifestValidation
  import opened RebuildAggregation
  import SI = SnapshotIndex

  type SnapshotId = Digest

  datatype RebuildError =
    | Unloadable
    | ForeignProject
    | Invalid(error: ValidationError)
    | Unsupported
    | Uncountable(cause: IndexError)

  /** What a snapshot root says of itself besides its manifest. */
  datatype Heading = Heading(project: Digest, createdAt: string, name: string, parent: Option<SnapshotId>)

  function HeadingOf(s: SI.SnapshotFile): Heading {
    Heading(s.project, s.createdAt, s.name, s.parent)
  }

  /** The row of a snapshot, with the totals its root states. */
  function Row(heading: Heading, totals: Totals): SI.SummaryRow {
    SI.SummaryRow(heading.project, heading.createdAt, heading.name, heading.parent, totals.count, totals.size)
  }

  ghost predicate RowFits(totals: Totals) {
    totals.count <= I64_MAX && totals.size <= I64_MAX
  }

  /** What the rebuild asks of one snapshot, with the cache those before it left. */
  ghost predicate Admits(store: Store, rules: ManifestRules, before: seq<SnapshotRoot>, s: SnapshotRoot) {
    && Acceptable(store, rules, s) && s.ownProject && RowFits(s.totals)
    && HasRoom(store, rules, before, s)
  }

  ghost predicate AllAdmitted(store: Store, rules: ManifestRules, snapshots: seq<SnapshotRoot>) {
    && (forall s | s in snapshots :: Acceptable(store, rules, s) && s.ownProject && RowFits(s.totals))
    && NoOverflow(store, rules, snapshots)
  }

  lemma OneMoreAdmitted(store: Store, rules: ManifestRules, snapshots: seq<SnapshotRoot>, i: nat)
    requires i < |snapshots|
    ensures AllAdmitted(store, rules, snapshots[..i + 1])
       <==> AllAdmitted(store, rules, snapshots[..i]) && Admits(store, rules, snapshots[..i], snapshots[i])
  {
    hide Acceptable, Fits, ChunksOf, SharedCache, NoOverflow;
    OneMore(snapshots, i);
    OneMoreCached(store, rules, snapshots, i);
    var longer := snapshots[..i + 1];
    assert snapshots[i] == longer[i] && snapshots[i] in longer;
    assert forall s | s in snapshots[..i] :: s in longer;
    assert forall s | s in longer :: s in snapshots[..i] || s == snapshots[i];
  }

  lemma {:induction false} PrefixAdmitted(store: Store, rules: ManifestRules, snapshots: seq<SnapshotRoot>, i: nat)
    requires i <= |snapshots| && AllAdmitted(store, rules, snapshots)
    ensures AllAdmitted(store, rules, snapshots[..i])
    decreases |snapshots| - i
  {
    hide AllAdmitted, Admits;
    if i == |snapshots| {
      assert snapshots[..i] == snapshots;
    } else {
      PrefixAdmitted(store, rules, snapshots, i + 1);
      OneMoreAdmitted(store, rules, snapshots, i);
    }
  }

  /** Refusing one snapshot is refusing all. */
  lemma RefusedOne(store: Store, rules: ManifestRules, snapshots: seq<SnapshotRoot>, i: nat)
    requires i < |snapshots| && !Admits(store, rules, snapshots[..i], snapshots[i])
    ensures !AllAdmitted(store, rules, snapshots)
  {
    hide AllAdmitted, Admits;
    OneMoreAdmitted(store, rules, snapshots, i);
    if AllAdmitted(store, rules, snapshots) {
      PrefixAdmitted(store, rules, snapshots, i + 1);
    }
  }

  /** Loads and validates one root; None when it may be queued. */
  method AdmitSnapshot(store: Store, validator: ManifestValidator, s: SnapshotRoot, ghost before: seq<SnapshotRoot>)
    returns (refusal: Option<RebuildError>)
    requires validator.Sound(store) && validator.cache.Keys == SharedCache(store, validator.rules, before)
    modifies validator
    ensures refusal.None? <==> Admits(store, validator.rules, before, s)
    ensures refusal.None? ==> validator.Sound(store)
    ensures refusal.None? ==>
      validator.cache.Keys
        == Retained(validator.rules, SharedCache(store, validator.rules, before) + ChunksOf(store, RootsOf(s)))
  {
    hide Acceptable, Genuine, Fits, ChunksOf, SharedCache, Retained, validator.Sound;
    ValidatedMeans(store, validator.rules, before, s);
    if s.Damaged? {
      return Some(Unloadable);
    }
    if !s.ownProject {
      return Some(ForeignProject);
    }
    var validated := validator.ValidateManifest(store, s);
    if validated.Err? {
      return Some(Invalid(validated.error));
    }
    validator.DropIfFull(store);
    return if s.totals.count > I64_MAX || s.totals.size > I64_MAX then Some(Unsupported) else None;
  }

  function RootsIn(ids: seq<SnapshotId>, roots: SnapshotId -> SnapshotRoot): (snapshots: seq<SnapshotRoot>)
    ensures |snapshots| == |ids| && forall i | 0 <= i < |ids| :: snapshots[i] == roots(ids[i])
  {
    seq(|ids|, i requires 0 <= i < |ids| => roots(ids[i]))
  }

  /** One row for every snapshot. */
  ghost predicate RowsOf(rows: map<SnapshotId, SI.SummaryRow>, ids: seq<SnapshotId>, roots: SnapshotId -> SnapshotRoot,
                         headings: SnapshotId -> Heading)
  {
    && rows.Keys == SI.IdSet(ids)
    && forall id | id in ids :: roots(id).Header? && rows[id] == Row(headings(id), roots(id).totals)
  }

  lemma OneMoreRow(rows: map<SnapshotId, SI.SummaryRow>, ids: seq<SnapshotId>, roots: SnapshotId -> SnapshotRoot,
                   headings: SnapshotId -> Heading, i: nat)
    requires i < |ids| && RowsOf(rows, ids[..i], roots, headings) && roots(ids[i]).Header?
    ensures RowsOf(rows[ids[i] := Row(headings(ids[i]), roots(ids[i]).totals)], ids[..i + 1], roots, headings)
  {
    assert ids[..i + 1] == ids[..i] + [ids[i]];
  }

  /** Validates every snapshot, enters its row and queues its root. */
  method QueueSnapshots(store: Store, rules: ManifestRules, ids: seq<SnapshotId>, roots: SnapshotId -> SnapshotRoot,
                        headings: SnapshotId -> Heading)
    returns (res: Result<seq<ManifestRef>, RebuildError>, rows: map<SnapshotId, SI.SummaryRow>)
    ensures res.Ok? <==> AllAdmitted(store, rules, RootsIn(ids, roots))
    ensures res.Ok? ==> res.value == AllRoots(RootsIn(ids, roots)) && RowsOf(rows, ids, roots, headings)
  {
    hide AllAdmitted, Admits, ChunksOf, Fits, RowsOf;
    var validator := new ManifestValidator(rules);
    var snapshots := RootsIn(ids, roots);
    var queued: seq<ManifestRef> := [];
    rows := map[];
    NothingAdmitted(store, rules);
    NoRows(roots, headings);
    assert snapshots[..0] == [] && ids[..0] == [];
    for i := 0 to |ids|
      invariant fresh(validator) && validator.rules == rules && validator.Sound(store)
      invariant validator.cache.Keys == SharedCache(store, rules, snapshots[..i])
      invariant AllAdmitted(store, rules, snapshots[..i]) && queued == AllRoots(snapshots[..i])
      invariant RowsOf(rows, ids[..i], roots, headings)
    {
      OneMore(snapshots, i);
      OneMoreCached(store, rules, snapshots, i);
      OneMoreAdmitted(store, rules, snapshots, i);
      var refusal := AdmitSnapshot(store, validator, snapshots[i], snapshots[..i]);
      if refusal.Some? {
        RefusedOne(store, rules, snapshots, i);
        return Err(refusal.value), rows;
      }
      AdmittedIsRead(store, rules, snapshots[..i], snapshots[i]);
      OneMoreRow(rows, ids, roots, headings, i);
      rows := rows[ids[i] := Row(headings(ids[i]), snapshots[i].totals)];
      queued := queued + RootsOf(snapshots[i]);
    }
    assert snapshots[..|ids|] == snapshots && ids[..|ids|] == ids;
    return Ok(queued), rows;
  }

  lemma AdmittedIsRead(store: Store, rules: ManifestRules, before: seq<SnapshotRoot>, s: SnapshotRoot)
    requires Admits(store, rules, before, s)
    ensures s.Header?
  {
  }

  lemma NoRows(roots: SnapshotId -> SnapshotRoot, headings: SnapshotId -> Heading)
    ensures RowsOf(map[], [], roots, headings)
  {
  }

  lemma NothingAdmitted(store: Store, rules: ManifestRules)
    ensures AllAdmitted(store, rules, []) && SharedCache(store, rules, []) == {}
  {
  }

  lemma {:induction false} AdmittedExpand(store: Store, rules: ManifestRules, snapshots: seq<SnapshotRoot>)
    requires AllAdmitted(store, rules, snapshots)
    ensures AllExpand(store, AllRoots(snapshots), MAX_LEVELS)
  {
    hide Acceptable, AllExpand, NoOverflow;
    RootsExpand(store, rules, snapshots);
  }

  /** One depth suffices for every snapshot that validates. */
  lemma RebuildableAtOnce(store: Store, roots: seq<ManifestRef>, depth: nat)
    requires AllExpand(store, roots, depth)
    ensures (exists d :: Rebuildable(store, roots, d)) <==> Rebuildable(store, roots, depth)
  {
    hide AllExpand, Multiplicity;
    if d :| Rebuildable(store, roots, d) {
      AnyDepth(store, roots, d, depth);
      assert forall t :: Multiplicity(store, roots, d, t) == Multiplicity(store, roots, depth, t) by {
        SameMultiplicities(store, roots, d, depth);
      }
    }
  }

  lemma SameMultiplicities(store: Store, roots: seq<ManifestRef>, d: nat, e: nat)
    requires AllVisits(store, roots, d) == AllVisits(store, roots, e)
    ensures forall t :: Multiplicity(store, roots, d, t) == Multiplicity(store, roots, e, t)
  {
  }

  /** What a rebuild that succeeds promises. */
  ghost predicate Rebuilt(store: Store, rules: ManifestRules, ids: seq<SnapshotId>, roots: SnapshotId -> SnapshotRoot,
                          headings: SnapshotId -> Heading, t: SI.Tables)
  {
    var all := AllRoots(RootsIn(ids, roots));
    && AllAdmitted(store, rules, RootsIn(ids, roots)) && Rebuildable(store, all, MAX_LEVELS)
    && RowsOf(t.snapshots, ids, roots, headings) && Tallies(t.refs, Expansion(store, all, MAX_LEVELS))
  }

  /**
   The rebuild succeeds exactly when every snapshot is this project's, validates on its own, states
   totals a row can hold and finds room beside those before it, and their objects can be counted;
   the reference counts are then the naive count over all their files.
   */
  method BuildSnapshotIndex(store: Store, rules: ManifestRules, ids: seq<SnapshotId>, roots: SnapshotId -> SnapshotRoot,
                            headings: SnapshotId -> Heading)
    returns (res: Result<SI.Tables, RebuildError>)
    ensures var snapshots := RootsIn(ids, roots);
      res.Ok? <==> AllAdmitted(store, rules, snapshots) && Rebuildable(store, AllRoots(snapshots), MAX_LEVELS)
    ensures res.Ok? ==> Rebuilt(store, rules, ids, roots, headings, res.value)
  {
    hide AllAdmitted, Rebuildable, Tallies, Expansion, AllExpand, RowsOf;
    var queued, rows := QueueSnapshots(store, rules, ids, roots, headings);
    if queued.Err? {
      return Err(queued.error);
    }
    AdmittedExpand(store, rules, RootsIn(ids, roots));
    RebuildableAtOnce(store, queued.value, MAX_LEVELS);
    var counted, _ := Rebuild(store, queued.value);
    return if counted.Ok? then Ok(SI.Tables(rows, counted.value)) else Err(Uncountable(counted.error));
  }

  // ---------------------------------------------------------------- what was built is current

  /** A snapshot's own file list is its manifest's expansion in another order. */
  ghost predicate Lists(store: Store, root: SnapshotRoot, s: SI.SnapshotFile) {
    root.Header? ==> multiset(Below(store, RootsOf(root))) == multiset(s.files)
  }

  /** The manifests of those snapshots that have one. */
  function ManifestsOf(ids: seq<SnapshotId>, roots: SnapshotId -> SnapshotRoot): map<SnapshotId, ManifestRef> {
    map id | id in ids && roots(id).Header? && roots(id).manifest.Some? :: roots(id).manifest.value
  }

  lemma {:induction false} RootsFromFront(s: SnapshotRoot, rest: seq<SnapshotRoot>)
    ensures AllRoots([s] + rest) == RootsOf(s) + AllRoots(rest)
  {
    var all := [s] + rest;
    if rest == [] {
      assert all[..0] == [] && all == [s];
    } else {
      assert all[..|all| - 1] == [s] + rest[..|rest| - 1];
      RootsFromFront(s, rest[..|rest| - 1]);
    }
  }

  lemma {:induction false} SameRoots(ids: seq<SnapshotId>, roots: SnapshotId -> SnapshotRoot,
                                     manifests: map<SnapshotId, ManifestRef>)
    requires forall id | id in ids :: RootsOf(roots(id)) == if id in manifests then [manifests[id]] else []
    ensures SI.ManifestRoots(ids, manifests) == AllRoots(RootsIn(ids, roots))
  {
    if ids != [] {
      SameRoots(ids[1..], roots, manifests);
      assert RootsIn(ids, roots) == [roots(ids[0])] + RootsIn(ids[1..], roots);
      RootsFromFront(roots(ids[0]), RootsIn(ids[1..], roots));
    }
  }

  lemma {:induction false} TotalsAreCounted(entries: seq<Entry>, rules: ManifestRules)
    ensures TotalsOf(entries, rules).count == |entries| && TotalsOf(entries, rules).size == SI.LogicalSize(entries)
  {
    if entries != [] {
      TotalsAreCounted(entries[1..], rules);
    }
  }

  /** What is known of one snapshot the rebuild took in. */
  lemma AdmittedSnapshot(store: Store, rules: ManifestRules, ids: seq<SnapshotId>, roots: SnapshotId -> SnapshotRoot,
                         content: SnapshotId -> SI.SnapshotFile, id: SnapshotId)
    requires id in ids && AllAdmitted(store, rules, RootsIn(ids, roots)) && Lists(store, roots(id), content(id))
    ensures roots(id).Header? && AllExpand(store, RootsOf(roots(id)), MAX_LEVELS)
    ensures var listed := Below(store, RootsOf(roots(id)));
      && multiset(listed) == multiset(content(id).files)
      && roots(id).totals.count == |listed| && roots(id).totals.size == SI.LogicalSize(listed)
  {
    hide Fits, ChunksOf, AllFine, Expands, Below, TotalsOf, NoOverflow;
    var i :| 0 <= i < |ids| && ids[i] == id;
    assert RootsIn(ids, roots)[i] in RootsIn(ids, roots);
    TotalsAreCounted(Below(store, RootsOf(roots(id))), rules);
  }

  lemma ManifestsStore(store: Store, rules: ManifestRules, ids: seq<SnapshotId>, roots: SnapshotId -> SnapshotRoot,
                       content: SnapshotId -> SI.SnapshotFile, id: SnapshotId)
    requires id in ids && AllAdmitted(store, rules, RootsIn(ids, roots)) && Lists(store, roots(id), content(id))
    ensures var manifests := ManifestsOf(ids, roots);
      && (id in manifests ==> Expands(store, manifests[id], MAX_LEVELS))
      && roots(id).Header? && RootsOf(roots(id)) == (if id in manifests then [manifests[id]] else [])
      && SI.ManifestFiles(store, manifests, MAX_LEVELS, id) == Below(store, RootsOf(roots(id)))
      && multiset(SI.ManifestFiles(store, manifests, MAX_LEVELS, id)) == multiset(content(id).files)
      && SI.Summary(content(id).(files := SI.ManifestFiles(store, manifests, MAX_LEVELS, id)))
         == Row(HeadingOf(content(id)), roots(id).totals)
  {
    hide AllAdmitted, Expansion, Expands, SI.ManifestRoots, Lists;
    AdmittedSnapshot(store, rules, ids, roots, content, id);
    SI.OneRoot(id, ManifestsOf(ids, roots));
    assert forall r | r in RootsOf(roots(id)) :: Expands(store, r, MAX_LEVELS);
    if id in ManifestsOf(ids, roots) {
      assert ManifestsOf(ids, roots)[id] in RootsOf(roots(id));
    }
  }

  lemma CountsFit(store: Store, roots: seq<ManifestRef>, refs: Refs)
    requires Rebuildable(store, roots, MAX_LEVELS) && Tallies(refs, Expansion(store, roots, MAX_LEVELS))
    ensures forall o | o in refs :: refs[o].size <= I64_MAX && refs[o].count <= I64_MAX
  {
    hide Expansion, AllExpand, Multiplicity;
    var entries := Expansion(store, roots, MAX_LEVELS);
    forall o | o in refs
      ensures refs[o].size <= I64_MAX && refs[o].count <= I64_MAX
    {
      OccurrencesPositive(entries, o);
      var e :| e in entries && e.objectId == o;
      assert refs[e.objectId].size == e.size;
    }
  }

  /** Every root lists the files of its snapshot, under its heading. */
  ghost predicate AllListed(store: Store, ids: seq<SnapshotId>, roots: SnapshotId -> SnapshotRoot,
                            headings: SnapshotId -> Heading, content: SnapshotId -> SI.SnapshotFile)
  {
    forall id | id in ids :: Lists(store, roots(id), content(id)) && headings(id) == HeadingOf(content(id))
  }

  function LiveIn(ids: seq<SnapshotId>, content: SnapshotId -> SI.SnapshotFile): SI.Live {
    map id | id in ids :: content(id)
  }

  lemma RebuiltRowsAreThese(store: Store, rules: ManifestRules, ids: seq<SnapshotId>, roots: SnapshotId -> SnapshotRoot,
                            headings: SnapshotId -> Heading, content: SnapshotId -> SI.SnapshotFile,
                            rows: map<SnapshotId, SI.SummaryRow>)
    requires AllListed(store, ids, roots, headings, content) && AllAdmitted(store, rules, RootsIn(ids, roots))
    requires RowsOf(rows, ids, roots, headings)
    ensures var manifests := ManifestsOf(ids, roots);
      && SI.Stores(store, manifests, LiveIn(ids, content), MAX_LEVELS)
      && rows == SI.RebuiltRows(store, manifests, LiveIn(ids, content), MAX_LEVELS)
      && SI.ManifestRoots(ids, manifests) == AllRoots(RootsIn(ids, roots))
  {
    hide AllAdmitted, Expands, Lists, SI.ManifestFiles, HeadingOf, Row, SI.Summary, SI.ManifestRoots, RootsOf, AllRoots,
         RootsIn;
    var manifests := ManifestsOf(ids, roots);
    forall id | id in ids
      ensures id in manifests ==> Expands(store, manifests[id], MAX_LEVELS)
      ensures RootsOf(roots(id)) == if id in manifests then [manifests[id]] else []
      ensures multiset(SI.ManifestFiles(store, manifests, MAX_LEVELS, id)) == multiset(content(id).files)
      ensures rows[id] == SI.Summary(content(id).(files := SI.ManifestFiles(store, manifests, MAX_LEVELS, id)))
    {
      ManifestsStore(store, rules, ids, roots, content, id);
    }
    SameRoots(ids, roots, manifests);
  }

  lemma RowsFit(store: Store, rules: ManifestRules, ids: seq<SnapshotId>, roots: SnapshotId -> SnapshotRoot,
                headings: SnapshotId -> Heading, rows: map<SnapshotId, SI.SummaryRow>)
    requires AllAdmitted(store, rules, RootsIn(ids, roots)) && RowsOf(rows, ids, roots, headings)
    ensures forall id | id in rows :: SI.SummaryFits(rows[id])
  {
    hide NoOverflow, Acceptable;
    forall id | id in rows
      ensures SI.SummaryFits(rows[id])
    {
      assert id in SI.IdSet(ids);
      var i :| 0 <= i < |ids| && ids[i] == id;
      assert RootsIn(ids, roots)[i] in RootsIn(ids, roots);
    }
  }

  /** The tables of a rebuild are current for the snapshots it was given. */
  lemma RebuildIsCurrent(store: Store, rules: ManifestRules, ids: seq<SnapshotId>, roots: SnapshotId -> SnapshotRoot,
                         headings: SnapshotId -> Heading, content: SnapshotId -> SI.SnapshotFile, t: SI.Tables)
    requires Distinct(ids) && AllListed(store, ids, roots, headings, content)
    requires Rebuilt(store, rules, ids, roots, headings, t)
    ensures SI.Current(t, LiveIn(ids, content))
  {
    hide AllAdmitted, Rebuildable, Tallies, Expansion, SI.Describes, SI.Stores, SI.RebuiltRows, SI.ManifestRoots,
         AllListed, RowsOf, AllRoots;
    RebuiltRowsAreThese(store, rules, ids, roots, headings, content, t.snapshots);
    CountsFit(store, AllRoots(RootsIn(ids, roots)), t.refs);
    RowsFit(store, rules, ids, roots, headings, t.snapshots);
    assert LiveIn(ids, content).Keys == SI.IdSet(ids);
    SI.RebuildDescribes(store, ManifestsOf(ids, roots), LiveIn(ids, content), MAX_LEVELS, ids, t.refs);
  }

  /** The tables a rebuild would arrive at. */
  lemma SomeTables(store: Store, rules: ManifestRules, ids: seq<SnapshotId>, roots: SnapshotId -> SnapshotRoot,
                   headings: SnapshotId -> Heading)
    returns (t: SI.Tables)
    requires AllAdmitted(store, rules, RootsIn(ids, roots))
    requires Rebuildable(store, AllRoots(RootsIn(ids, roots)), MAX_LEVELS)
    ensures Rebuilt(store, rules, ids, roots, headings, t)
  {
    hide NoOverflow, Acceptable, Expansion, AllExpand, AllRoots, Row, RootsIn;
    var entries := Expansion(store, AllRoots(RootsIn(ids, roots)), MAX_LEVELS);
    SI.AddedToNothing(entries);
    forall id | id in ids
      ensures roots(id).Header?
    {
      var i :| 0 <= i < |ids| && ids[i] == id;
      AdmittedHeader(store, rules, ids, roots, i);
    }
    t := SI.Tables(map id | id in ids :: Row(headings(id), roots(id).totals), SI.AddFiles(map[], entries));
  }

  lemma AdmittedHeader(store: Store, rules: ManifestRules, ids: seq<SnapshotId>, roots: SnapshotId -> SnapshotRoot,
                       i: nat)
    requires AllAdmitted(store, rules, RootsIn(ids, roots)) && i < |ids|
    ensures roots(ids[i]).Header?
  {
    assert RootsIn(ids, roots)[i] in RootsIn(ids, roots);
  }

  /** What can be rebuilt could also have been entered one by one. */
  lemma RebuildableIsIndexable(store: Store, rules: ManifestRules, ids: seq<SnapshotId>,
                               roots: SnapshotId -> SnapshotRoot, headings: SnapshotId -> Heading,
                               content: SnapshotId -> SI.SnapshotFile)
    requires Distinct(ids) && AllListed(store, ids, roots, headings, content)
    requires AllAdmitted(store, rules, RootsIn(ids, roots))
    requires Rebuildable(store, AllRoots(RootsIn(ids, roots)), MAX_LEVELS)
    ensures SI.Indexable(LiveIn(ids, content))
  {
    hide AllAdmitted, Rebuildable, AllListed, SI.Current, SI.Indexable, Rebuilt;
    var t := SomeTables(store, rules, ids, roots, headings);
    RebuildIsCurrent(store, rules, ids, roots, headings, content, t);
    SI.CurrentIsIndexable(t, LiveIn(ids, content));
  }
}
