/**
 Validating manifests with a cache of subtrees validated before (storage/snapshot_v2.rs). The
 cache remembers how high a subtree is and what its entries span; that is enough to decide depth,
 key order and the shape of every node above it wherever the subtree is used again. The cache is
 bounded, and a manifest whose chunks no longer fit into it is refused, however sound it is:
 acceptance is exactly soundness plus room.
 */
module ManifestValidation {
  import opened Outcomes
  import opened Sums
  import opened PathOrder
  import opened Manifests
  import opened Snapshots
  import opened ManifestShape

  datatype ValidationError =
    | TooDeep
    | TooManyChunks
    | Repeated
    | Unreadable
    | Unordered
    | NotCanonical
    | SummaryOverflow
    | CacheFull
    | SummaryMismatch

  datatype ValidationInfo = ValidationInfo(height: nat, span: Span)

  // ---------------------------------------------------------------- what the cache knows

  /** `rs` are canonical and expand to ordered keys, which `span` sums up. */
  ghost predicate Spans(store: Store, rules: ManifestRules, rs: seq<ManifestRef>, span: Span) {
    && AllFine(store, rules, rs) && Ordered(KeysBelow(store, rules, rs))
    && Below(store, rs) != [] && span == SpanOf(Below(store, rs), rules) && TotalsFit(span.totals)
  }

  ghost predicate Describes(store: Store, rules: ManifestRules, r: ManifestRef, info: ValidationInfo) {
    info.height < MAX_LEVELS && HasHeight(store, r, info.height) && Spans(store, rules, [r], info.span)
  }

  /** A tree with span `b` may be listed right after trees with span `a`. */
  predicate CanFollow(a: Span, b: Span) {
    Follows(a.last, b.first) && TotalsFit(Joined(a, b).totals)
  }

  lemma Higher(store: Store, r: ManifestRef, d: nat, e: nat)
    requires Expands(store, r, d) && d <= e
    ensures Expands(store, r, e)
  {
    assert AllExpand(store, [r], d);
    DepthIrrelevant(store, [r], d, e);
    assert r in [r];
  }

  lemma HeightIsExact(store: Store, r: ManifestRef, height: nat, depth: nat)
    requires HasHeight(store, r, height)
    ensures Expands(store, r, depth) <==> height < depth
  {
    if height < depth {
      Higher(store, r, height + 1, depth);
    } else if Expands(store, r, depth) {
      Higher(store, r, depth, height);
    }
  }

  lemma DescribedIsOrderly(store: Store, rules: ManifestRules, r: ManifestRef, info: ValidationInfo)
    requires Describes(store, rules, r, info)
    ensures Orderly(store, rules, [r]) && info.span.totals == TotalsOf(Below(store, [r]), rules)
  {
    hide Expands, KeysBelow, Below, AllFine, Ordered, TotalsOf;
    HeightIsExact(store, r, info.height, MAX_LEVELS);
  }

  /** The ends of a span are the first and the last key. */
  lemma SpanEnds(store: Store, rules: ManifestRules, rs: seq<ManifestRef>, span: Span)
    requires Spans(store, rules, rs, span)
    ensures var keys := KeysBelow(store, rules, rs);
      keys != [] && keys[0] == span.first && keys[|keys| - 1] == span.last
  {
    hide AllFine, Ordered, TotalsOf;
  }

  lemma SpansConcat(store: Store, rules: ManifestRules, rs: seq<ManifestRef>, r: ManifestRef, a: Span, b: Span)
    requires Spans(store, rules, rs, a) && Spans(store, rules, [r], b) && CanFollow(a, b)
    ensures Spans(store, rules, rs + [r], Joined(a, b))
  {
    hide AllFine, Ordered, Below, Joined;
    SpanEnds(store, rules, rs, a);
    SpanEnds(store, rules, [r], b);
    BelowConcat(store, rules, rs, [r]);
    FineConcat(store, rules, rs, [r]);
    OrderedConcat(KeysBelow(store, rules, rs), KeysBelow(store, rules, [r]));
    SpanConcat(Below(store, rs), Below(store, [r]), rules);
  }

  /** In an orderly row each child can follow those before it. */
  lemma NextCanFollow(store: Store, rules: ManifestRules, rs: seq<ManifestRef>, r: ManifestRef, rest: seq<ManifestRef>,
                      a: Span, b: Span)
    requires Spans(store, rules, rs, a) && Spans(store, rules, [r], b)
    requires Orderly(store, rules, (rs + [r]) + rest)
    ensures CanFollow(a, b)
  {
    hide AllFine, Ordered, KeysBelow, Below, AllExpand, TotalsOf;
    OrderlyParts(store, rules, rs + [r], rest);
    OrderlyParts(store, rules, rs, [r]);
    SpanEnds(store, rules, rs, a);
    SpanEnds(store, rules, [r], b);
  }

  lemma LeafDescribed(store: Store, rules: ManifestRules, r: ManifestRef)
    requires Readable(store, r) && r.kind.Leaf? && rules.encodes(r)
    requires LeafShape(rules, store[r].prefix, store[r].entries) && Ordered(Keys(store[r].entries, rules.key))
    requires TotalsFit(TotalsOf(store[r].entries, rules))
    ensures Describes(store, rules, r, ValidationInfo(0, SpanOf(store[r].entries, rules)))
  {
    hide Ordered, TotalsOf;
    LeafWalk(store, r);
  }

  lemma NodeHeight(store: Store, r: ManifestRef, height: nat)
    requires Readable(store, r) && height > 0 && AllExpand(store, Children(store, r), height)
    requires exists k :: k in Children(store, r) && !Expands(store, k, height - 1)
    ensures HasHeight(store, r, height)
  {
  }

  /** What the links of a node demand is decided by the spans of its children. */
  lemma LinkIsFine(store: Store, rules: ManifestRules, prefix: string, link: Link, info: ValidationInfo)
    requires Describes(store, rules, link.child, info)
    ensures LinkFine(store, rules, prefix, link) <==> LinkShape(prefix, link, info.span)
  {
    hide HasHeight, LinkShape, AllFine, Ordered;
  }

  // ---------------------------------------------------------------- room for a row of trees

  /** Nothing but room and depth could still stop a validation of `rs`, and there is room. */
  ghost predicate Ready(store: Store, rules: ManifestRules, visited: set<ManifestRef>, cached: set<ManifestRef>,
                        rs: seq<ManifestRef>, depth: nat)
  {
    && depth <= MAX_LEVELS && Orderly(store, rules, rs) && AllExpand(store, rs, MAX_LEVELS - depth)
    && visited !! ChunksOf(store, rs) && |visited + ChunksOf(store, rs)| <= MAX_MANIFEST_VALIDATION_CHUNKS
    && Fits(rules, cached + ChunksOf(store, rs))
  }

  lemma ReadyHead(store: Store, rules: ManifestRules, visited: set<ManifestRef>, cached: set<ManifestRef>,
                  r: ManifestRef, rest: seq<ManifestRef>, depth: nat)
    requires Ready(store, rules, visited, cached, [r] + rest, depth)
    ensures Ready(store, rules, visited, cached, [r], depth)
  {
    hide Orderly, Fits, Expands, ChunksOf;
    OrderlyParts(store, rules, [r], rest);
    ChunksConcat(store, [r], rest);
    assert r in [r] + rest;
    SmallerFits(rules, cached + ChunksOf(store, [r]), cached + ChunksOf(store, [r] + rest));
    SmallerCount(visited + ChunksOf(store, [r]), visited + ChunksOf(store, [r] + rest));
  }

  /** The rest stays ready once the first tree is visited and cached. */
  lemma ReadyTail(store: Store, rules: ManifestRules, visited: set<ManifestRef>, cached: set<ManifestRef>,
                  r: ManifestRef, rest: seq<ManifestRef>, depth: nat, after: set<ManifestRef>)
    requires Ready(store, rules, visited, cached, [r] + rest, depth) && after <= visited + ChunksOf(store, [r])
    ensures Ready(store, rules, after, cached + ChunksOf(store, [r]), rest, depth)
  {
    hide Orderly, Fits, Expands, ChunksOf;
    OrderlyParts(store, rules, [r], rest);
    PartsAreDisjoint(store, rules, [r], rest);
    ChunksConcat(store, [r], rest);
    assert forall x | x in rest :: x in [r] + rest;
    SmallerCount(after + ChunksOf(store, rest), visited + ChunksOf(store, [r] + rest));
    assert (cached + ChunksOf(store, [r])) + ChunksOf(store, rest) == cached + ChunksOf(store, [r] + rest);
  }

  lemma ReadyIsMet(store: Store, rules: ManifestRules, visited: set<ManifestRef>, cached: set<ManifestRef>,
                   r: ManifestRef, depth: nat)
    requires Ready(store, rules, visited, cached, [r], depth)
    ensures depth <= MAX_MANIFEST_DEPTH && |visited| < MAX_MANIFEST_VALIDATION_CHUNKS && r !in visited
    ensures Readable(store, r) && ChunkFine(store, rules, r)
    ensures Expands(store, r, MAX_LEVELS - depth) && r in ChunksOf(store, [r])
  {
    hide Orderly, Fits, ChunkFine;
    assert r in [r] && Expands(store, r, MAX_LEVELS - depth);
    RootIsFine(store, rules, r);
    RootIsMet(store, r, MAX_LEVELS);
    SmallerCount(visited + {r}, visited + ChunksOf(store, [r]));
  }

  lemma ReadyNode(store: Store, rules: ManifestRules, visited: set<ManifestRef>, cached: set<ManifestRef>,
                  r: ManifestRef, depth: nat)
    requires Ready(store, rules, visited, cached, [r], depth) && r.kind.Node?
    ensures depth < MAX_LEVELS && ChunkFine(store, rules, r)
    ensures Ready(store, rules, visited + {r}, cached, Children(store, r), depth + 1)
    ensures Fits(rules, cached + ChunksOf(store, [r]))
  {
    hide Orderly, Fits, ChunksOf, ChunkFine;
    assert r in [r] && Expands(store, r, MAX_LEVELS - depth);
    NodeParts(store, rules, r);
    NodeIsNotBelow(store, rules, r);
    assert (visited + {r}) + ChunksOf(store, Children(store, r)) == visited + ChunksOf(store, [r]);
    SmallerFits(rules, cached + ChunksOf(store, Children(store, r)), cached + ChunksOf(store, [r]));
  }

  lemma ReadyLeaf(store: Store, rules: ManifestRules, r: ManifestRef)
    requires Orderly(store, rules, [r]) && Readable(store, r) && r.kind.Leaf?
    ensures LeafShape(rules, store[r].prefix, store[r].entries) && Ordered(Keys(store[r].entries, rules.key))
    ensures rules.encodes(r) && TotalsFit(TotalsOf(store[r].entries, rules))
  {
    hide LeafShape, Ordered, TotalsOf;
    LeafWalk(store, r);
    RootIsFine(store, rules, r);
  }

  lemma ReadyIsOrderly(store: Store, rules: ManifestRules, visited: set<ManifestRef>, cached: set<ManifestRef>,
                       rs: seq<ManifestRef>, depth: nat)
    requires Ready(store, rules, visited, cached, rs, depth)
    ensures Orderly(store, rules, rs)
  {
  }

  lemma ReadyAtRoot(store: Store, rules: ManifestRules, cached: set<ManifestRef>, r: ManifestRef)
    requires Orderly(store, rules, [r]) && Fits(rules, cached + ChunksOf(store, [r]))
    ensures Ready(store, rules, {}, cached, [r], 0)
  {
    SmallerFits(rules, ChunksOf(store, [r]), cached + ChunksOf(store, [r]));
    assert {} + ChunksOf(store, [r]) == ChunksOf(store, [r]);
  }

  // ---------------------------------------------------------------- a row of children

  function Max(a: nat, b: nat): nat {
    if a < b then b else a
  }

  /** Children validated so far: one more than how high they are, and what they span. */
  ghost predicate Siblings(store: Store, rules: ManifestRules, rs: seq<ManifestRef>, info: ValidationInfo) {
    && info.height > 0 && AllExpand(store, rs, info.height)
    && (exists k :: k in rs && !Expands(store, k, info.height - 1))
    && Spans(store, rules, rs, info.span)
  }

  /** What is known of a row of children, of which none may have been validated so far. */
  ghost predicate Joining(store: Store, rules: ManifestRules, rs: seq<ManifestRef>, info: ValidationInfo) {
    if info.height == 0 then rs == [] else Siblings(store, rules, rs, info)
  }

  lemma FirstSibling(store: Store, rules: ManifestRules, r: ManifestRef, info: ValidationInfo)
    requires Describes(store, rules, r, info)
    ensures Siblings(store, rules, [r], ValidationInfo(info.height + 1, info.span))
  {
    hide Spans;
    assert r in [r];
  }

  lemma NextSibling(store: Store, rules: ManifestRules, rs: seq<ManifestRef>, r: ManifestRef,
                    info: ValidationInfo, next: ValidationInfo)
    requires Siblings(store, rules, rs, info) && Describes(store, rules, r, next) && CanFollow(info.span, next.span)
    ensures Siblings(store, rules, rs + [r],
      ValidationInfo(Max(info.height, next.height + 1), Joined(info.span, next.span)))
  {
    hide Spans, CanFollow, Joined;
    SpansConcat(store, rules, rs, r, info.span, next.span);
    var all, higher := rs + [r], Max(info.height, next.height + 1);
    forall k | k in all
      ensures Expands(store, k, higher)
    {
      if k in rs {
        Higher(store, k, info.height, higher);
      } else {
        Higher(store, k, next.height + 1, higher);
      }
    }
    if info.height < next.height + 1 {
      assert r in all;
    } else {
      var k :| k in rs && !Expands(store, k, info.height - 1);
      assert k in all;
    }
  }

  /** A node over validated children, one level higher, with the prefix and the links they ask for. */
  lemma NodeFromSiblings(store: Store, rules: ManifestRules, r: ManifestRef, info: ValidationInfo)
    requires Readable(store, r) && r.kind.Node? && rules.encodes(r)
    requires |store[r].links| >= 2 && EdgesIncrease(store[r].links)
    requires LinksFine(store, rules, store[r].prefix, store[r].links) && ClosingShape(store[r].prefix, info.span)
    requires Joining(store, rules, Children(store, r), info) && info.height <= MAX_MANIFEST_DEPTH
    ensures Describes(store, rules, r, info) && ChunksOf(store, [r]) == {r} + ChunksOf(store, Children(store, r))
  {
    hide LinksFine, ClosingShape, EdgesIncrease, AllFine, HasHeight, Below, Ordered;
    NodeHeight(store, r, info.height);
    NodeWalk(store, r, info.height);
    NodeFine(store, rules, r, info.height);
  }

  class ManifestValidator {
    /** What is known of every subtree validated so far, for any root. */
    var cache: map<ManifestRef, ValidationInfo>
    var estimatedHeapBytes: nat
    /** What this root has led to. */
    var visited: set<ManifestRef>
    const rules: ManifestRules

    constructor (rules: ManifestRules)
      ensures cache == map[] && this.rules == rules && forall store :: Sound(store)
    {
      this.rules := rules;
      cache, estimatedHeapBytes, visited := map[], 0, {};
      new;
      EmptyFits(rules);
    }

    /** The cache is right about every subtree in it, holds whole subtrees only, and keeps its limits. */
    ghost predicate Sound(store: Store)
      reads this`cache, this`estimatedHeapBytes
    {
      CacheSound(store, rules, cache, estimatedHeapBytes)
    }

    ghost predicate ReadyFor(store: Store, rs: seq<ManifestRef>, depth: nat)
      reads this`cache, this`visited
    {
      Ready(store, rules, visited, cache.Keys, rs, depth)
    }

    lemma CachedWhole(store: Store, r: ManifestRef)
      requires Sound(store) && r in cache
      ensures ChunksOf(store, [r]) <= cache.Keys && r in ChunksOf(store, [r])
    {
      hide Spans;
      forall c | c in cache.Keys
        ensures Readable(store, c)
      {
        assert Describes(store, rules, c, cache[c]) && ChildrenAmong(store, c, cache.Keys);
      }
      VisitsWithin(store, [r], MAX_LEVELS, cache.Keys);
      RootIsMet(store, r, MAX_LEVELS);
    }

    method ValidateLeaf(store: Store, r: ManifestRef) returns (res: Result<ValidationInfo, ValidationError>)
      requires Readable(store, r) && r.kind.Leaf?
      ensures var entries := store[r].entries;
        res.Ok? <==>
          && rules.encodes(r) && LeafShape(rules, store[r].prefix, entries)
          && Ordered(Keys(entries, rules.key)) && TotalsFit(TotalsOf(entries, rules))
      ensures res.Ok? ==> Describes(store, rules, r, res.value) && res.value.height == 0
      ensures res.Err? ==> res.error.NotCanonical? || res.error.Unordered? || res.error.SummaryOverflow?
    {
      hide Describes, Ordered, TotalsOf, LeafLength, CommonPrefix;
      var prefix, entries := store[r].prefix, store[r].entries;
      var totals := TotalsOf(entries, rules);
      if totals.count > U64_MAX || totals.size > U64_MAX || totals.pathBytes > U64_MAX {
        return Err(SummaryOverflow);
      }
      if !rules.encodes(r) || entries == [] {
        return Err(NotCanonical);
      }
      var span := SpanOf(entries, rules);
      if LeafLength(prefix, span.totals) > MANIFEST_LEAF_TARGET_BYTES && |entries| != 1 {
        return Err(NotCanonical);
      }
      var inOrder := ValidateOrderedKeys(Keys(entries, rules.key));
      if !inOrder {
        return Err(Unordered);
      }
      if prefix != CommonPrefix(span.first, span.last) {
        return Err(NotCanonical);
      }
      LeafDescribed(store, rules, r);
      return Ok(ValidationInfo(0, span));
    }

    method EdgesAreOrdered(links: seq<Link>) returns (ok: bool)
      ensures ok <==> EdgesIncrease(links)
    {
      for i := 0 to |links|
        invariant forall j | 0 < j < i :: links[j - 1].edge < links[j].edge
      {
        if i > 0 && links[i - 1].edge >= links[i].edge {
          return false;
        }
      }
      return true;
    }

    method LinkMatches(prefix: string, link: Link, span: Span) returns (ok: bool)
      ensures ok <==> LinkShape(prefix, link, span)
    {
      if !(prefix <= span.first) {
        return false;
      }
      if EdgeAt(span.first, |prefix|) != link.edge || EdgeAt(span.last, |prefix|) != link.edge {
        return false;
      }
      return link.totals == span.totals;
    }

    /** The prefix is the longest common one, and the entries would not have fitted into one leaf. */
    method NodeIsClosed(prefix: string, span: Span) returns (ok: bool)
      ensures ok <==> ClosingShape(prefix, span)
    {
      if prefix != CommonPrefix(span.first, span.last) {
        return false;
      }
      return LeafLength(prefix, span.totals) > MANIFEST_LEAF_TARGET_BYTES;
    }

    /** Puts a validated chunk into the cache, if it still fits. */
    method Remember(store: Store, r: ManifestRef, info: ValidationInfo)
      returns (res: Result<ValidationInfo, ValidationError>)
      requires Sound(store) && Describes(store, rules, r, info) && ChildrenAmong(store, r, cache.Keys)
      modifies this`cache, this`estimatedHeapBytes
      ensures Sound(store)
      ensures res.Ok? <==> Fits(rules, old(cache.Keys) + {r})
      ensures res.Ok? ==> res.value == info && cache.Keys == old(cache.Keys) + {r}
      ensures res.Err? ==> res.error.CacheFull? && cache == old(cache)
    {
      hide CacheSound, Fits, Describes;
      if r in cache {
        assert cache.Keys == cache.Keys + {r};
        CacheFits(store, rules, cache, estimatedHeapBytes);
        return Ok(info);
      }
      CacheGrows(store, rules, cache, estimatedHeapBytes, r, info);
      if |cache| >= MAX_MANIFEST_VALIDATION_CHUNKS {
        return Err(CacheFull);
      }
      if estimatedHeapBytes + rules.weight(r) > MAX_MANIFEST_VALIDATION_CACHE_BYTES {
        return Err(CacheFull);
      }
      cache, estimatedHeapBytes := cache[r := info], estimatedHeapBytes + rules.weight(r);
      return Ok(info);
    }

    /**
     Accepts every tree that is orderly, fits below `depth`, meets nothing visited and finds room,
     and no tree that is not orderly. A failure because of depth or an unreadable chunk means the
     tree does not expand here.
     */
    method ValidateSubtree(store: Store, r: ManifestRef, depth: nat)
      returns (res: Result<ValidationInfo, ValidationError>)
      requires Sound(store) && depth <= MAX_LEVELS
      modifies this`cache, this`estimatedHeapBytes, this`visited
      ensures Sound(store) && old(cache.Keys) <= cache.Keys
      ensures res.Ok? ==> Describes(store, rules, r, res.value) && depth + res.value.height <= MAX_MANIFEST_DEPTH
      ensures res.Ok? ==> cache.Keys == old(cache.Keys) + ChunksOf(store, [r])
      ensures res.Ok? ==> visited <= old(visited) + ChunksOf(store, [r])
      ensures old(visited) <= visited && (res.Ok? ==> r in visited)
      ensures depth <= MAX_MANIFEST_DEPTH ==>
        if |old(visited)| >= MAX_MANIFEST_VALIDATION_CHUNKS then res == Err(TooManyChunks)
        else r in old(visited) ==> res == Err(Repeated)
      ensures old(ReadyFor(store, [r], depth)) ==> res.Ok?
      ensures res.Err? && (res.error.TooDeep? || res.error.Unreadable?) ==> !Expands(store, r, MAX_LEVELS - depth)
      decreases MAX_LEVELS - depth, 3
    {
      hide Describes, Spans, CacheSound, Fits, ChunksOf, Ready, ChunkFine;
      ghost var ready := ReadyFor(store, [r], depth);
      if ready {
        ReadyIsMet(store, rules, visited, cache.Keys, r, depth);
      }
      if depth > MAX_MANIFEST_DEPTH {
        return Err(TooDeep);
      }
      if |visited| >= MAX_MANIFEST_VALIDATION_CHUNKS {
        return Err(TooManyChunks);
      }
      if r in visited {
        return Err(Repeated);
      }
      if r in cache {
        visited := visited + {r};
        CachedWhole(store, r);
        CachedHeight(store, r, MAX_LEVELS - depth);
        return if depth + cache[r].height > MAX_MANIFEST_DEPTH then Err(TooDeep) else Ok(cache[r]);
      }
      if !Readable(store, r) {
        visited := visited + {r};
        return Err(Unreadable);
      }
      if r.kind.Leaf? {
        res := ValidateNewLeaf(store, r, depth);
      } else {
        res := ValidateNewNode(store, r, depth);
      }
    }

    lemma CachedHeight(store: Store, r: ManifestRef, depth: nat)
      requires Sound(store) && r in cache
      ensures Describes(store, rules, r, cache[r]) && (Expands(store, r, depth) <==> cache[r].height < depth)
    {
      hide Spans, Fits;
      HeightIsExact(store, r, cache[r].height, depth);
    }

    method ValidateNewLeaf(store: Store, r: ManifestRef, depth: nat)
      returns (res: Result<ValidationInfo, ValidationError>)
      requires Sound(store) && depth <= MAX_MANIFEST_DEPTH && Readable(store, r) && r.kind.Leaf?
      modifies this`cache, this`estimatedHeapBytes, this`visited
      ensures Sound(store) && old(cache.Keys) <= cache.Keys
      ensures res.Ok? ==> Describes(store, rules, r, res.value) && depth + res.value.height <= MAX_MANIFEST_DEPTH
      ensures res.Ok? ==> cache.Keys == old(cache.Keys) + ChunksOf(store, [r])
      ensures res.Ok? ==> visited <= old(visited) + ChunksOf(store, [r])
      ensures old(visited) <= visited && (res.Ok? ==> r in visited)
      ensures old(ReadyFor(store, [r], depth)) ==> res.Ok?
      ensures res.Err? ==> !res.error.TooDeep? && !res.error.Unreadable?
    {
      hide Describes, Spans, CacheSound, Fits, ChunksOf, Orderly, LeafShape, Ordered, TotalsOf;
      ghost var ready := ReadyFor(store, [r], depth);
      LeafWalk(store, r);
      if ready {
        ReadyLeaf(store, rules, r);
      }
      visited := visited + {r};
      var info :- ValidateLeaf(store, r);
      assert Children(store, r) == [];
      res := Remember(store, r, info);
    }

    method ValidateNewNode(store: Store, r: ManifestRef, depth: nat)
      returns (res: Result<ValidationInfo, ValidationError>)
      requires Sound(store) && depth <= MAX_MANIFEST_DEPTH && Readable(store, r) && r.kind.Node?
      modifies this`cache, this`estimatedHeapBytes, this`visited
      ensures Sound(store) && old(cache.Keys) <= cache.Keys
      ensures res.Ok? ==> Describes(store, rules, r, res.value) && depth + res.value.height <= MAX_MANIFEST_DEPTH
      ensures res.Ok? ==> cache.Keys == old(cache.Keys) + ChunksOf(store, [r])
      ensures res.Ok? ==> visited <= old(visited) + ChunksOf(store, [r])
      ensures old(visited) <= visited && (res.Ok? ==> r in visited)
      ensures old(ReadyFor(store, [r], depth)) ==> res.Ok?
      ensures res.Err? && (res.error.TooDeep? || res.error.Unreadable?) ==> !Expands(store, r, MAX_LEVELS - depth)
      decreases MAX_LEVELS - depth, 2
    {
      hide Describes, Spans, CacheSound, Fits, ChunksOf, Ready, Joining, Orderly, AllFine, LinksFine, EdgesIncrease,
           ClosingShape, Below;
      ghost var ready, cached := ReadyFor(store, [r], depth), cache.Keys;
      ReadyIsFor(store, [r], depth);
      if ready {
        ReadyNode(store, rules, visited, cache.Keys, r, depth);
      }
      visited := visited + {r};
      var increasing := EdgesAreOrdered(store[r].links);
      if !rules.encodes(r) || |store[r].links| < 2 || !increasing {
        return Err(NotCanonical);
      }
      ReadyIsFor(store, Children(store, r), depth + 1);
      var below := ValidateChildren(store, r, depth);
      if below.Err? {
        return below;
      }
      if ready {
        SpanOfNode(store, rules, r, below.value);
      }
      var closed := NodeIsClosed(store[r].prefix, below.value.span);
      if !closed {
        return Err(NotCanonical);
      }
      NodeFromSiblings(store, rules, r, below.value);
      assert (cached + ChunksOf(store, Children(store, r))) + {r} == cached + ChunksOf(store, [r]);
      res := Remember(store, r, below.value);
    }

    lemma SpanOfNode(store: Store, rules: ManifestRules, r: ManifestRef, info: ValidationInfo)
      requires ChunkFine(store, rules, r) && r.kind.Node? && info.height <= MAX_MANIFEST_DEPTH
      requires Joining(store, rules, Children(store, r), info)
      ensures ClosingShape(store[r].prefix, info.span)
    {
      hide LinksFine, EdgesIncrease, ClosingShape, Below, AllFine, Ordered, Expands;
      NodeWalk(store, r, info.height);
    }

    lemma ReadyIsFor(store: Store, rs: seq<ManifestRef>, depth: nat)
      ensures ReadyFor(store, rs, depth) <==> Ready(store, rules, visited, cache.Keys, rs, depth)
    {
    }

    /** One more child, whose keys must all come later. */
    method JoinSibling(store: Store, ghost front: seq<ManifestRef>, ghost r: ManifestRef, ghost rest: seq<ManifestRef>,
                       info: ValidationInfo, next: ValidationInfo)
      returns (res: Result<ValidationInfo, ValidationError>)
      requires Joining(store, rules, front, info) && Describes(store, rules, r, next)
      ensures res.Ok? ==> Joining(store, rules, front + [r], res.value)
      ensures res.Ok? ==> res.value.height == Max(info.height, next.height + 1)
      ensures Orderly(store, rules, (front + [r]) + rest) ==> res.Ok?
      ensures res.Err? ==> res.error.Unordered? || res.error.SummaryOverflow?
    {
      hide Describes, Siblings, Orderly;
      if info.height == 0 {
        FirstSibling(store, rules, r, next);
        assert front + [r] == [r];
        return Ok(ValidationInfo(next.height + 1, next.span));
      }
      if Orderly(store, rules, (front + [r]) + rest) {
        SiblingCanFollow(store, rules, front, r, rest, info, next);
      }
      if !Follows(info.span.last, next.span.first) {
        return Err(Unordered);
      }
      var span := Joined(info.span, next.span);
      if span.totals.count > U64_MAX || span.totals.size > U64_MAX || span.totals.pathBytes > U64_MAX {
        return Err(SummaryOverflow);
      }
      NextSibling(store, rules, front, r, info, next);
      return Ok(ValidationInfo(Max(info.height, next.height + 1), span));
    }

    lemma SiblingCanFollow(store: Store, rules: ManifestRules, front: seq<ManifestRef>, r: ManifestRef,
                           rest: seq<ManifestRef>, info: ValidationInfo, next: ValidationInfo)
      requires Siblings(store, rules, front, info) && Describes(store, rules, r, next)
      requires Orderly(store, rules, (front + [r]) + rest)
      ensures CanFollow(info.span, next.span)
    {
      hide Spans, Orderly, CanFollow;
      NextCanFollow(store, rules, front, r, rest, info.span, next.span);
    }

    method ValidateChildren(store: Store, r: ManifestRef, depth: nat)
      returns (res: Result<ValidationInfo, ValidationError>)
      requires Sound(store) && depth <= MAX_MANIFEST_DEPTH && Readable(store, r) && r.kind.Node?
      modifies this`cache, this`estimatedHeapBytes, this`visited
      ensures Sound(store) && old(cache.Keys) <= cache.Keys
      ensures res.Ok? ==> Joining(store, rules, Children(store, r), res.value)
      ensures res.Ok? ==> depth + res.value.height <= MAX_MANIFEST_DEPTH
      ensures res.Ok? ==> LinksFine(store, rules, store[r].prefix, store[r].links)
      ensures res.Ok? ==> cache.Keys == old(cache.Keys) + ChunksOf(store, Children(store, r))
      ensures res.Ok? ==> visited <= old(visited) + ChunksOf(store, Children(store, r))
      ensures old(visited) <= visited
      ensures res.Ok? ==> ChildrenAmong(store, r, cache.Keys)
      ensures LinksFine(store, rules, store[r].prefix, store[r].links)
        && old(ReadyFor(store, Children(store, r), depth + 1))
        ==> res.Ok?
      ensures res.Err? && (res.error.TooDeep? || res.error.Unreadable?) ==> !Expands(store, r, MAX_LEVELS - depth)
      decreases MAX_LEVELS - depth, 1
    {
      hide Describes, Spans, CacheSound, Fits, ChunksOf, Orderly, Ready, Siblings, LinkFine, LinkShape, UpTo, ReadyFor,
           LinksFine;
      var links := store[r].links;
      ghost var ready :=
        ReadyFor(store, Children(store, r), depth + 1) && LinksFine(store, rules, store[r].prefix, links);
      ghost var visited0, cached0 := visited, cache.Keys;
      var info := ValidationInfo(0, Span("", "", NOTHING));
      NoneYet(store, r, depth, info, ready);
      for i := 0 to |links|
        invariant Sound(store) && visited0 <= visited && cached0 <= cache.Keys
        invariant UpTo(store, r, i, depth, info, ready, visited0, cached0)
      {
        info :- ValidateChild(store, r, i, depth, info, ready, visited0, cached0);
      }
      AllDone(store, r, depth, info, ready, visited0, cached0);
      return Ok(info);
    }

    /** The first `i` children are validated, linked as they should be and cached. */
    ghost predicate UpTo(store: Store, r: ManifestRef, i: nat, depth: nat, info: ValidationInfo, ready: bool,
                         visited0: set<ManifestRef>, cached0: set<ManifestRef>)
      requires Readable(store, r) && r.kind.Node? && i <= |store[r].links|
      reads this`cache, this`visited
    {
      var children := Children(store, r);
      && depth + info.height <= MAX_MANIFEST_DEPTH
      && cache.Keys == cached0 + ChunksOf(store, children[..i])
      && visited0 <= visited <= visited0 + ChunksOf(store, children[..i])
      && Joining(store, rules, children[..i], info)
      && (forall j | 0 <= j < i ::
            children[j] in cache && LinkFine(store, rules, store[r].prefix, store[r].links[j]))
      && (ready ==>
            && ReadyFor(store, children[i..], depth + 1)
            && Ready(store, rules, visited0, cached0, children, depth + 1)
            && LinksFine(store, rules, store[r].prefix, store[r].links))
    }

    lemma NoneYet(store: Store, r: ManifestRef, depth: nat, info: ValidationInfo, ready: bool)
      requires Readable(store, r) && r.kind.Node? && depth <= MAX_MANIFEST_DEPTH
      requires info == ValidationInfo(0, Span("", "", NOTHING))
      requires ready ==>
        ReadyFor(store, Children(store, r), depth + 1) && LinksFine(store, rules, store[r].prefix, store[r].links)
      ensures UpTo(store, r, 0, depth, info, ready, visited, cache.Keys)
    {
      hide Ready, LinksFine, ChunksOf;
      NoChunks(store);
      assert Children(store, r)[0..] == Children(store, r) && Children(store, r)[..0] == [];
    }

    lemma AllDone(store: Store, r: ManifestRef, depth: nat, info: ValidationInfo, ready: bool,
                  visited0: set<ManifestRef>, cached0: set<ManifestRef>)
      requires Readable(store, r) && r.kind.Node?
      requires UpTo(store, r, |store[r].links|, depth, info, ready, visited0, cached0)
      ensures Joining(store, rules, Children(store, r), info) && depth + info.height <= MAX_MANIFEST_DEPTH
      ensures LinksFine(store, rules, store[r].prefix, store[r].links)
      ensures cache.Keys == cached0 + ChunksOf(store, Children(store, r))
      ensures visited <= visited0 + ChunksOf(store, Children(store, r))
      ensures ChildrenAmong(store, r, cache.Keys)
    {
      hide Ready, LinkFine, ChunksOf, Joining;
      assert Children(store, r)[..|store[r].links|] == Children(store, r);
    }

    method ValidateChild(store: Store, r: ManifestRef, i: nat, depth: nat, info: ValidationInfo, ghost ready: bool,
                         ghost visited0: set<ManifestRef>, ghost cached0: set<ManifestRef>)
      returns (res: Result<ValidationInfo, ValidationError>)
      requires Sound(store) && depth <= MAX_MANIFEST_DEPTH && Readable(store, r) && r.kind.Node?
      requires i < |store[r].links| && UpTo(store, r, i, depth, info, ready, visited0, cached0)
      modifies this`cache, this`estimatedHeapBytes, this`visited
      ensures Sound(store) && old(cache.Keys) <= cache.Keys && old(visited) <= visited
      ensures res.Ok? ==> UpTo(store, r, i + 1, depth, res.value, ready, visited0, cached0)
      ensures res.Err? ==> !ready
      ensures res.Err? && (res.error.TooDeep? || res.error.Unreadable?) ==> !Expands(store, r, MAX_LEVELS - depth)
      decreases MAX_LEVELS - depth, 0
    {
      hide Describes, Spans, CacheSound, Fits, ChunksOf, Orderly, Ready, Siblings, LinkFine, LinkShape, UpTo, Joining,
           LinksFine;
      var prefix, link := store[r].prefix, store[r].links[i];
      ghost var children := Children(store, r);
      ghost var before, cached, front, rest := visited, cache.Keys, children[..i], children[i + 1..];
      UpToTells(store, r, i, depth, info, ready, visited0, cached0);
      assert children[i..] == [children[i]] + rest;
      if ready {
        ReadyHead(store, rules, visited, cached, children[i], rest, depth + 1);
      }
      var below := ValidateSubtree(store, link.child, depth + 1);
      if below.Err? {
        assert children[i] in children;
        return Err(below.error);
      }
      LinkIsFine(store, rules, prefix, link, below.value);
      var linked := LinkMatches(prefix, link, below.value.span);
      if !linked {
        LinksAreFine(store, rules, prefix, store[r].links, i);
        return Err(NotCanonical);
      }
      if ready {
        assert (front + [children[i]]) + rest == children;
        ReadyIsOrderly(store, rules, visited0, cached0, children, depth + 1);
      }
      res := JoinSibling(store, front, children[i], rest, info, below.value);
      if res.Err? {
        return;
      }
      if ready {
        ReadyTail(store, rules, before, cached, children[i], rest, depth + 1, visited);
      }
      OneChildMore(store, r, i, depth, res.value, ready, visited0, cached0, before, cached);
    }

    lemma LinksAreFine(store: Store, rules: ManifestRules, prefix: string, links: seq<Link>, i: nat)
      requires i < |links|
      ensures LinksFine(store, rules, prefix, links) ==> LinkFine(store, rules, prefix, links[i])
    {
    }

    lemma UpToTells(store: Store, r: ManifestRef, i: nat, depth: nat, info: ValidationInfo, ready: bool,
                    visited0: set<ManifestRef>, cached0: set<ManifestRef>)
      requires Readable(store, r) && r.kind.Node? && i < |store[r].links|
      requires UpTo(store, r, i, depth, info, ready, visited0, cached0)
      ensures depth + info.height <= MAX_MANIFEST_DEPTH && Joining(store, rules, Children(store, r)[..i], info)
      ensures cache.Keys == cached0 + ChunksOf(store, Children(store, r)[..i])
      ensures visited0 <= visited <= visited0 + ChunksOf(store, Children(store, r)[..i])
      ensures forall j | 0 <= j < i ::
        Children(store, r)[j] in cache && LinkFine(store, rules, store[r].prefix, store[r].links[j])
      ensures ready ==>
        && ReadyFor(store, Children(store, r)[i..], depth + 1)
        && Ready(store, rules, visited0, cached0, Children(store, r), depth + 1)
        && LinksFine(store, rules, store[r].prefix, store[r].links)
    {
      hide Ready, LinkFine, ChunksOf, Joining;
    }

    lemma OneChildMore(store: Store, r: ManifestRef, i: nat, depth: nat, next: ValidationInfo, ready: bool,
                       visited0: set<ManifestRef>, cached0: set<ManifestRef>, before: set<ManifestRef>,
                       cached: set<ManifestRef>)
      requires Readable(store, r) && r.kind.Node? && i < |store[r].links|
      requires var children := Children(store, r);
        && cached == cached0 + ChunksOf(store, children[..i])
        && visited0 <= before <= visited0 + ChunksOf(store, children[..i])
        && (forall j | 0 <= j < i ::
              children[j] in cached && LinkFine(store, rules, store[r].prefix, store[r].links[j]))
        && cache.Keys == cached + ChunksOf(store, [children[i]])
        && before <= visited <= before + ChunksOf(store, [children[i]])
        && LinkFine(store, rules, store[r].prefix, store[r].links[i])
        && Joining(store, rules, children[..i] + [children[i]], next)
      requires depth + next.height <= MAX_MANIFEST_DEPTH
      requires ready ==>
        && ReadyFor(store, Children(store, r)[i + 1..], depth + 1)
        && Ready(store, rules, visited0, cached0, Children(store, r), depth + 1)
        && LinksFine(store, rules, store[r].prefix, store[r].links)
      ensures UpTo(store, r, i + 1, depth, next, ready, visited0, cached0)
    {
      hide Ready, LinkFine, ChunksOf, Joining, LinksFine, ReadyFor;
      var children := Children(store, r);
      assert children[..i + 1] == children[..i] + [children[i]];
      ChunksConcat(store, children[..i], [children[i]]);
      RootIsChunk(store, children[i]);
    }

    /**
     Success is what loading, verification and garbage collection rely on. With any sound cache a
     manifest is accepted exactly when it is orderly, its totals are the stated ones, and its new
     chunks find room beside those cached before.
     */
    method ValidateManifest(store: Store, s: SnapshotRoot) returns (res: Result<Unit, ValidationError>)
      requires Sound(store) && s.Header?
      modifies this`cache, this`estimatedHeapBytes, this`visited
      ensures Sound(store) && old(cache.Keys) <= cache.Keys
      ensures res.Ok? <==> Genuine(store, rules, s) && Fits(rules, old(cache.Keys) + ChunksOf(store, RootsOf(s)))
      ensures res.Ok? ==> cache.Keys == old(cache.Keys) + ChunksOf(store, RootsOf(s))
      ensures res.Err? && (res.error.TooDeep? || res.error.Unreadable?) ==> !AllExpand(store, RootsOf(s), MAX_LEVELS)
    {
      hide Describes, CacheSound, Fits, ChunksOf, Orderly, Below;
      visited := {};
      if s.manifest.None? {
        NoChunks(store);
        NothingIsOrderly(store, rules);
        CacheFits(store, rules, cache, estimatedHeapBytes);
        assert cache.Keys == cache.Keys + ChunksOf(store, []);
        return if s.totals == NOTHING then Ok(Done) else Err(SummaryMismatch);
      }
      var root := s.manifest.value;
      ghost var cached := cache.Keys;
      assert RootsOf(s) == [root] && root in [root];
      if Orderly(store, rules, [root]) && Fits(rules, cached + ChunksOf(store, [root])) {
        ReadyAtRoot(store, rules, cached, root);
      }
      var info :- ValidateSubtree(store, root, 0);
      DescribedIsOrderly(store, rules, root, info);
      CacheFits(store, rules, cache, estimatedHeapBytes);
      return if s.totals == info.span.totals then Ok(Done) else Err(SummaryMismatch);
    }

    /** What every caller does after each snapshot. */
    method DropIfFull(store: Store)
      requires Sound(store)
      modifies this`cache, this`estimatedHeapBytes
      ensures Sound(store) && cache.Keys == Retained(rules, old(cache.Keys))
    {
      hide CacheSound;
      CacheSize(store, rules, cache, estimatedHeapBytes);
      EmptyIsSound(store, rules);
      if |cache| >= MAX_MANIFEST_VALIDATION_CHUNKS || estimatedHeapBytes >= MAX_MANIFEST_VALIDATION_CACHE_BYTES {
        cache, estimatedHeapBytes := map[], 0;
      }
    }
  }

  /** Each key may come right after the one before it. */
  method ValidateOrderedKeys(keys: seq<string>) returns (ok: bool)
    ensures ok <==> Ordered(keys)
  {
    hide Ordered, Follows;
    OneIsOrdered(keys);
    if keys == [] {
      return true;
    }
    for i := 1 to |keys|
      invariant Ordered(keys[..i])
    {
      NextOrdered(keys, i);
      if !Follows(keys[i - 1], keys[i]) {
        return false;
      }
    }
    assert keys[..|keys|] == keys;
    return true;
  }

  lemma OneIsOrdered(keys: seq<string>)
    ensures keys == [] ==> Ordered(keys)
    ensures keys != [] ==> Ordered(keys[..1])
  {
  }

  // ---------------------------------------------------------------- the cache

  ghost predicate CacheSound(store: Store, rules: ManifestRules, cache: map<ManifestRef, ValidationInfo>, bytes: nat) {
    && (forall r | r in cache :: Describes(store, rules, r, cache[r]))
    && (forall r | r in cache :: ChildrenAmong(store, r, cache.Keys))
    && bytes == Sum(cache.Keys, rules.weight) && Fits(rules, cache.Keys)
  }

  ghost predicate ChildrenAmong(store: Store, r: ManifestRef, chunks: set<ManifestRef>) {
    forall k | k in Children(store, r) :: k in chunks
  }

  lemma CacheFits(store: Store, rules: ManifestRules, cache: map<ManifestRef, ValidationInfo>, bytes: nat)
    requires CacheSound(store, rules, cache, bytes)
    ensures Fits(rules, cache.Keys)
  {
    hide Describes;
  }

  lemma CacheGrows(store: Store, rules: ManifestRules, cache: map<ManifestRef, ValidationInfo>, bytes: nat,
                   r: ManifestRef, info: ValidationInfo)
    requires CacheSound(store, rules, cache, bytes) && r !in cache
    requires Describes(store, rules, r, info) && ChildrenAmong(store, r, cache.Keys)
    ensures cache[r := info].Keys == cache.Keys + {r}
    ensures Fits(rules, cache.Keys + {r}) <==>
      |cache| < MAX_MANIFEST_VALIDATION_CHUNKS && bytes + rules.weight(r) <= MAX_MANIFEST_VALIDATION_CACHE_BYTES
    ensures Fits(rules, cache.Keys + {r}) ==> CacheSound(store, rules, cache[r := info], bytes + rules.weight(r))
  {
    hide Describes, ChildrenAmong, Fits;
    RoomForOne(rules, cache.Keys, r);
    assert |cache.Keys| == |cache|;
    assert cache[r := info].Keys == cache.Keys + {r};
    forall c | c in cache[r := info]
      ensures Describes(store, rules, c, cache[r := info][c]) && ChildrenAmong(store, c, cache.Keys + {r})
    {
      if c != r {
        assert Describes(store, rules, c, cache[c]) && ChildrenAmong(store, c, cache.Keys);
      }
      AmongMore(store, c, cache.Keys, r);
    }
  }

  lemma AmongMore(store: Store, c: ManifestRef, chunks: set<ManifestRef>, r: ManifestRef)
    ensures ChildrenAmong(store, c, chunks) ==> ChildrenAmong(store, c, chunks + {r})
  {
  }

  lemma RoomForOne(rules: ManifestRules, chunks: set<ManifestRef>, r: ManifestRef)
    requires Fits(rules, chunks) && r !in chunks
    ensures Sum(chunks + {r}, rules.weight) == Sum(chunks, rules.weight) + rules.weight(r)
    ensures Fits(rules, chunks + {r}) <==>
      && |chunks| < MAX_MANIFEST_VALIDATION_CHUNKS
      && Sum(chunks, rules.weight) + rules.weight(r) <= MAX_MANIFEST_VALIDATION_CACHE_BYTES
  {
    SumAdd(chunks, r, rules.weight);
  }

  lemma CacheSize(store: Store, rules: ManifestRules, cache: map<ManifestRef, ValidationInfo>, bytes: nat)
    requires CacheSound(store, rules, cache, bytes)
    ensures bytes == Sum(cache.Keys, rules.weight) && |cache.Keys| == |cache|
  {
    hide Describes;
    assert |cache.Keys| == |cache|;
  }

  lemma EmptyIsSound(store: Store, rules: ManifestRules)
    ensures CacheSound(store, rules, map[], 0)
  {
    EmptyFits(rules);
  }

  lemma EmptyFits(rules: ManifestRules)
    ensures Fits(rules, {}) && Sum({}, rules.weight) == 0
  {
  }

  lemma NoChunks(store: Store)
    ensures ChunksOf(store, []) == {}
  {
  }

  lemma NothingIsOrderly(store: Store, rules: ManifestRules)
    ensures Orderly(store, rules, []) && TotalsOf(Below(store, []), rules) == NOTHING
  {
  }

  lemma RootIsChunk(store: Store, r: ManifestRef)
    ensures r in ChunksOf(store, [r])
  {
    RootIsMet(store, r, MAX_LEVELS);
  }
}
