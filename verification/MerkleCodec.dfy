/**
 The stored form of manifest chunks (storage/merkle_codec.rs). Encoding writes every field in a
 fixed order and width, decoding reads them back. The two fit exactly: what was encoded decodes to
 itself, and bytes decode only if they are the encoding of what they decode to, so that one chunk
 has one stored form and one address.
 */
module MerkleCodec {
  import opened Outcomes
  import opened WireBytes
  import opened Manifests
  import MS = ManifestShape

  type U64 = n: nat | n < 0x1_0000_0000_0000_0000
  type U32 = n: nat | n < 0x1_0000_0000
  type I64 = n: int | -0x8000_0000_0000_0000 <= n < 0x8000_0000_0000_0000
  type Digest32 = b: Bytes | |b| == 32 witness seq(32, i => 0)

  /** The letters CPMRKL2 and a zero. */
  const MAGIC: Bytes := [0x43, 0x50, 0x4D, 0x52, 0x4B, 0x4C, 0x32, 0]
  const CODEC_VERSION: byte := 1
  const PAYLOAD_SCHEMA: U64 := 1
  const MAX_MANIFEST_CHUNK_BYTES: nat := 1024 * 1024
  const MAX_EXACT_PATH_BYTES: nat := 128 * 1024
  const MAX_PREFIX_BYTES: nat := MAX_EXACT_PATH_BYTES
  const NANOSECONDS_IN_A_SECOND: nat := 1_000_000_000

  datatype CodecError = Invalid | Limit | Overflow

  datatype LeafEntry = LeafEntry(path: Bytes, size: U64, seconds: I64, nanoseconds: U32, objectId: Digest32)

  datatype ManifestLeaf = ManifestLeaf(prefix: Bytes, entries: seq<LeafEntry>)

  datatype ManifestChild = ManifestChild(edge: byte, kind: ChunkKind, id: Digest32, totals: Totals)

  datatype ManifestNode = ManifestNode(prefix: Bytes, children: seq<ManifestChild>)

  // ---------------------------------------------------------------- the stored form

  function Counted(b: Bytes): Bytes {
    BigEndian(|b|, 4) + b
  }

  /** Two's complement. */
  function Wrapped(n: I64): U64 {
    if n >= 0 then n else n + 0x1_0000_0000_0000_0000
  }

  function Unwrapped(n: U64): I64 {
    if n < 0x8000_0000_0000_0000 then n else n - 0x1_0000_0000_0000_0000
  }

  function TotalsBytes(t: Totals): Bytes {
    BigEndian(t.count, 8) + (BigEndian(t.size, 8) + BigEndian(t.pathBytes, 8))
  }

  function EntryBytes(e: LeafEntry): Bytes {
    Counted(e.path)
    + (BigEndian(e.size, 8) + (BigEndian(Wrapped(e.seconds), 8) + (BigEndian(e.nanoseconds, 4) + e.objectId)))
  }

  function EntriesBytes(entries: seq<LeafEntry>): Bytes {
    if entries == [] then [] else EntryBytes(entries[0]) + EntriesBytes(entries[1..])
  }

  function KindByte(kind: ChunkKind): byte {
    match kind
    case Root => 1
    case Node => 2
    case Leaf => 3
  }

  function ChildBytes(c: ManifestChild): Bytes {
    [c.edge] + ([KindByte(c.kind)] + (c.id + TotalsBytes(c.totals)))
  }

  function ChildrenBytes(children: seq<ManifestChild>): Bytes {
    if children == [] then [] else ChildBytes(children[0]) + ChildrenBytes(children[1..])
  }

  function TotalsOfEntries(entries: seq<LeafEntry>): Totals {
    if entries == [] then MS.NOTHING
    else MS.Plus(Totals(1, entries[0].size, |entries[0].path|), TotalsOfEntries(entries[1..]))
  }

  function TotalsOfChildren(children: seq<ManifestChild>): Totals {
    if children == [] then MS.NOTHING else MS.Plus(children[0].totals, TotalsOfChildren(children[1..]))
  }

  /** Schema, prefix, number of parts, totals, then the parts. */
  function Payload(prefix: Bytes, count: nat, totals: Totals, parts: Bytes): Bytes {
    BigEndian(PAYLOAD_SCHEMA, 2) + (Counted(prefix) + (BigEndian(count, 4) + (TotalsBytes(totals) + parts)))
  }

  function Envelope(kind: ChunkKind, payload: Bytes): Bytes {
    MAGIC + ([KindByte(kind)] + ([CODEC_VERSION] + (BigEndian(0, 2) + (BigEndian(|payload|, 4) + payload))))
  }

  function LeafBytes(leaf: ManifestLeaf): Bytes {
    Envelope(Leaf, Payload(leaf.prefix, |leaf.entries|, TotalsOfEntries(leaf.entries), EntriesBytes(leaf.entries)))
  }

  function NodeBytes(node: ManifestNode): Bytes {
    Envelope(Node, Payload(node.prefix, |node.children|, TotalsOfChildren(node.children), ChildrenBytes(node.children)))
  }

  predicate InRange(t: Totals) {
    t.count <= U64_MAX && t.size <= U64_MAX && t.pathBytes <= U64_MAX
  }

  predicate EntryFits(e: LeafEntry, utf8: Bytes -> bool) {
    |e.path| <= MAX_EXACT_PATH_BYTES && utf8(e.path) && e.nanoseconds < NANOSECONDS_IN_A_SECOND
  }

  predicate ChildFits(c: ManifestChild) {
    !c.kind.Root? && InRange(c.totals)
  }

  /** What can be stored as a leaf. */
  predicate LeafFits(leaf: ManifestLeaf, utf8: Bytes -> bool) {
    && |leaf.prefix| <= MAX_PREFIX_BYTES && |leaf.entries| <= MAX_LEAF_ENTRIES
    && (forall e | e in leaf.entries :: EntryFits(e, utf8))
    && InRange(TotalsOfEntries(leaf.entries)) && |LeafBytes(leaf)| <= MAX_MANIFEST_CHUNK_BYTES
  }

  predicate NodeFits(node: ManifestNode) {
    && |node.prefix| <= MAX_PREFIX_BYTES && |node.children| <= MAX_NODE_CHILDREN
    && (forall c | c in node.children :: ChildFits(c))
    && InRange(TotalsOfChildren(node.children)) && |NodeBytes(node)| <= MAX_MANIFEST_CHUNK_BYTES
  }

  // ---------------------------------------------------------------- lengths

  lemma {:induction false} EntriesLength(entries: seq<LeafEntry>)
    ensures |EntriesBytes(entries)| == 56 * |entries| + TotalsOfEntries(entries).pathBytes
    ensures TotalsOfEntries(entries).count == |entries|
  {
    if entries != [] {
      EntriesLength(entries[1..]);
    }
  }

  /** The length the builder and the validator compute without encoding is that of the encoding. */
  lemma LeafLengthIsExact(leaf: ManifestLeaf, prefix: string)
    requires |prefix| == |leaf.prefix|
    ensures |LeafBytes(leaf)| == MS.LeafLength(prefix, TotalsOfEntries(leaf.entries))
  {
    EntriesLength(leaf.entries);
  }

  lemma {:induction false} ChildrenLength(children: seq<ManifestChild>)
    ensures |ChildrenBytes(children)| == 58 * |children|
  {
    if children != [] {
      ChildrenLength(children[1..]);
    }
  }

  /** A node with a prefix and a number of children within their limits is never too long to store. */
  lemma NodesAreShort(node: ManifestNode)
    requires |node.prefix| <= MAX_PREFIX_BYTES && |node.children| <= MAX_NODE_CHILDREN
    ensures |NodeBytes(node)| <= MAX_MANIFEST_CHUNK_BYTES
  {
    ChildrenLength(node.children);
  }

  // ---------------------------------------------------------------- reading

  /** What a reader may know it is about to read, and what comes after it. */
  datatype Expected<T> = Anything | Awaited(value: T, rest: Bytes) {
    ghost predicate Met(res: Result<T, CodecError>, remaining: Bytes) {
      Awaited? ==> res == Ok(value) && remaining == rest
    }
  }

  class Reader {
    var remaining: Bytes

    constructor (bytes: Bytes)
      ensures remaining == bytes
    {
      remaining := bytes;
    }

    method Take(count: nat, ghost expected: Expected<Bytes>) returns (res: Result<Bytes, CodecError>)
      requires expected.Awaited? ==> |expected.value| == count && remaining == expected.value + expected.rest
      modifies this
      ensures res.Ok? ==> |res.value| == count && old(remaining) == res.value + remaining
      ensures expected.Met(res, remaining)
    {
      if |remaining| < count {
        return Err(Invalid);
      }
      res := Ok(remaining[..count]);
      remaining := remaining[count..];
    }

    method Number(width: nat, ghost expected: Expected<nat>) returns (res: Result<nat, CodecError>)
      requires expected.Awaited? ==>
        expected.value < Power(width) && remaining == BigEndian(expected.value, width) + expected.rest
      modifies this
      ensures res.Ok? ==> res.value < Power(width) && old(remaining) == BigEndian(res.value, width) + remaining
      ensures expected.Met(res, remaining)
    {
      if expected.Awaited? {
        BigEndianRoundTrip(expected.value, width);
      }
      var taken :- Take(width, if expected.Awaited? then Awaited(BigEndian(expected.value, width), expected.rest)
                               else Anything);
      NumbersFillTheirWidth(taken);
      return Ok(FromBigEndian(taken));
    }

    /** A byte string after its length. */
    method CountedBytes(limit: nat, ghost expected: Expected<Bytes>) returns (res: Result<Bytes, CodecError>)
      requires expected.Awaited? ==>
        && |expected.value| <= limit && |expected.value| < 0x1_0000_0000
        && remaining == Counted(expected.value) + expected.rest
      modifies this
      ensures res.Ok? ==> |res.value| <= limit && old(remaining) == Counted(res.value) + remaining
      ensures expected.Met(res, remaining)
    {
      PowersOfWidths();
      ghost var length :=
        if expected.Awaited? then Awaited(|expected.value|, expected.value + expected.rest) else Anything;
      assert expected.Awaited? ==> remaining == BigEndian(|expected.value|, 4) + (expected.value + expected.rest);
      var n :- Number(4, length);
      if n > limit {
        return Err(Limit);
      }
      res := Take(n, expected);
      assert res.Ok? ==> BigEndian(n, 4) + (res.value + remaining) == Counted(res.value) + remaining;
    }

    method Summary(ghost expected: Expected<Totals>) returns (res: Result<Totals, CodecError>)
      requires expected.Awaited? ==>
        InRange(expected.value) && remaining == TotalsBytes(expected.value) + expected.rest
      modifies this
      ensures res.Ok? ==> InRange(res.value) && old(remaining) == TotalsBytes(res.value) + remaining
      ensures expected.Met(res, remaining)
    {
      hide BigEndian;
      PowersOfWidths();
      ghost var t := if expected.Awaited? then expected.value else MS.NOTHING;
      ghost var rest := if expected.Awaited? then expected.rest else [];
      ghost var third := BigEndian(t.pathBytes, 8) + rest;
      ghost var second := BigEndian(t.size, 8) + third;
      assert TotalsBytes(t) + rest == BigEndian(t.count, 8) + second;
      var count :- Number(8, if expected.Awaited? then Awaited(t.count, second) else Anything);
      var size :- Number(8, if expected.Awaited? then Awaited(t.size, third) else Anything);
      var pathBytes :- Number(8, if expected.Awaited? then Awaited(t.pathBytes, rest) else Anything);
      assert BigEndian(count, 8) + (BigEndian(size, 8) + (BigEndian(pathBytes, 8) + remaining))
        == TotalsBytes(Totals(count, size, pathBytes)) + remaining;
      return Ok(Totals(count, size, pathBytes));
    }

    method Entry(utf8: Bytes -> bool, ghost expected: Expected<LeafEntry>) returns (res: Result<LeafEntry, CodecError>)
      requires expected.Awaited? ==>
        EntryFits(expected.value, utf8) && remaining == EntryBytes(expected.value) + expected.rest
      modifies this
      ensures res.Ok? ==> EntryFits(res.value, utf8) && old(remaining) == EntryBytes(res.value) + remaining
      ensures expected.Met(res, remaining)
    {
      hide BigEndian, Counted;
      PowersOfWidths();
      ghost var awaited, e, rest := expected.Awaited?, NO_ENTRY, [];
      if awaited {
        e, rest := expected.value, expected.rest;
      }
      ghost var after4 := e.objectId + rest;
      ghost var after3 := BigEndian(e.nanoseconds, 4) + after4;
      ghost var after2 := BigEndian(Wrapped(e.seconds), 8) + after3;
      ghost var after1 := BigEndian(e.size, 8) + after2;
      assert EntryBytes(e) + rest == Counted(e.path) + after1;
      var path :- CountedBytes(MAX_EXACT_PATH_BYTES, if awaited then Awaited(e.path, after1) else Anything);
      if !utf8(path) {
        return Err(Invalid);
      }
      var size :- Number(8, if awaited then Awaited(e.size, after2) else Anything);
      var seconds :- Number(8, if awaited then Awaited(Wrapped(e.seconds), after3) else Anything);
      var nanoseconds :- Number(4, if awaited then Awaited(e.nanoseconds, after4) else Anything);
      if nanoseconds >= NANOSECONDS_IN_A_SECOND {
        return Err(Invalid);
      }
      var objectId :- Take(32, if awaited then Awaited(e.objectId, rest) else Anything);
      var entry := LeafEntry(path, size, Unwrapped(seconds), nanoseconds, objectId);
      assert Counted(path) + (BigEndian(size, 8) + (BigEndian(seconds, 8) + (BigEndian(nanoseconds, 4)
        + (objectId + remaining)))) == EntryBytes(entry) + remaining;
      return Ok(entry);
    }

    method Child(ghost expected: Expected<ManifestChild>) returns (res: Result<ManifestChild, CodecError>)
      requires expected.Awaited? ==>
        ChildFits(expected.value) && remaining == ChildBytes(expected.value) + expected.rest
      modifies this
      ensures res.Ok? ==> ChildFits(res.value) && old(remaining) == ChildBytes(res.value) + remaining
      ensures expected.Met(res, remaining)
    {
      hide TotalsBytes;
      ghost var awaited, c, rest := expected.Awaited?, NO_CHILD, [];
      if awaited {
        c, rest := expected.value, expected.rest;
      }
      ghost var after3 := TotalsBytes(c.totals) + rest;
      ghost var after2 := c.id + after3;
      ghost var after1 := [KindByte(c.kind)] + after2;
      assert ChildBytes(c) + rest == [c.edge] + after1;
      var edge :- Take(1, if awaited then Awaited([c.edge], after1) else Anything);
      var kindByte :- Take(1, if awaited then Awaited([KindByte(c.kind)], after2) else Anything);
      if kindByte[0] != 2 && kindByte[0] != 3 {
        return Err(Invalid);
      }
      var kind := if kindByte[0] == 2 then Node else Leaf;
      var id :- Take(32, if awaited then Awaited(c.id, after3) else Anything);
      var totals :- Summary(if awaited then Awaited(c.totals, rest) else Anything);
      var child := ManifestChild(edge[0], kind, id, totals);
      assert edge == [child.edge] && kindByte == [KindByte(kind)];
      assert edge + (kindByte + (id + (TotalsBytes(totals) + remaining))) == ChildBytes(child) + remaining;
      return Ok(child);
    }

    /** Schema, prefix, number of parts and totals, which come before the parts. */
    method Header(limit: nat, ghost expected: Expected<PayloadHeader>) returns (res: Result<PayloadHeader, CodecError>)
      requires expected.Awaited? ==>
        && HeaderFits(expected.value, limit)
        && remaining == HeaderBytes(expected.value) + expected.rest
      modifies this
      ensures res.Ok? ==> HeaderFits(res.value, limit) && old(remaining) == HeaderBytes(res.value) + remaining
      ensures expected.Met(res, remaining)
    {
      hide BigEndian, Counted, TotalsBytes;
      PowersOfWidths();
      ghost var awaited, h, rest := expected.Awaited?, NO_HEADER, [];
      if awaited {
        h, rest := expected.value, expected.rest;
      }
      ghost var after3 := TotalsBytes(h.totals) + rest;
      ghost var after2 := BigEndian(h.count, 4) + after3;
      ghost var after1 := Counted(h.prefix) + after2;
      assert HeaderBytes(h) + rest == BigEndian(PAYLOAD_SCHEMA, 2) + after1;
      var schema :- Number(2, if awaited then Awaited(PAYLOAD_SCHEMA, after1) else Anything);
      if schema != PAYLOAD_SCHEMA {
        return Err(Invalid);
      }
      var prefix :- CountedBytes(MAX_PREFIX_BYTES, if awaited then Awaited(h.prefix, after2) else Anything);
      var count :- Number(4, if awaited then Awaited(h.count, after3) else Anything);
      if count > limit {
        return Err(Limit);
      }
      var totals :- Summary(if awaited then Awaited(h.totals, rest) else Anything);
      var header := PayloadHeader(prefix, count, totals);
      assert BigEndian(schema, 2) + (Counted(prefix) + (BigEndian(count, 4) + (TotalsBytes(totals) + remaining)))
        == HeaderBytes(header) + remaining;
      return Ok(header);
    }

    /** So many entries in a row. */
    method Entries(count: nat, utf8: Bytes -> bool, ghost expected: Expected<seq<LeafEntry>>)
      returns (res: Result<seq<LeafEntry>, CodecError>)
      requires expected.Awaited? ==>
        && |expected.value| == count && (forall e | e in expected.value :: EntryFits(e, utf8))
        && remaining == EntriesBytes(expected.value) + expected.rest
      modifies this
      ensures res.Ok? ==>
        && |res.value| == count && (forall e | e in res.value :: EntryFits(e, utf8))
        && old(remaining) == EntriesBytes(res.value) + remaining
      ensures expected.Met(res, remaining)
    {
      hide EntryBytes, EntryFits;
      ghost var awaited, all, rest := expected.Awaited?, [], [];
      if awaited {
        all, rest := expected.value, expected.rest;
        assert all[0..] == all;
      }
      var entries: seq<LeafEntry> := [];
      assert [] + remaining == remaining;
      for i := 0 to count
        invariant |entries| == i && (forall e | e in entries :: EntryFits(e, utf8))
        invariant old(remaining) == EntriesBytes(entries) + remaining
        invariant awaited ==> entries == all[..i] && remaining == EntriesBytes(all[i..]) + rest
      {
        ghost var next := if awaited then Awaited(all[i], EntriesBytes(all[i + 1..]) + rest) else Anything;
        if awaited {
          assert all[i..][1..] == all[i + 1..] && all[i] in all;
          assert (EntryBytes(all[i]) + EntriesBytes(all[i + 1..])) + rest
            == EntryBytes(all[i]) + (EntriesBytes(all[i + 1..]) + rest);
        }
        var e :- Entry(utf8, next);
        OneMoreEntry(entries, e);
        assert EntriesBytes(entries) + (EntryBytes(e) + remaining) == EntriesBytes(entries + [e]) + remaining;
        entries := entries + [e];
      }
      if awaited {
        assert all[..count] == all && all[count..] == [] && [] + rest == rest;
      }
      return Ok(entries);
    }

    method Children(count: nat, ghost expected: Expected<seq<ManifestChild>>)
      returns (res: Result<seq<ManifestChild>, CodecError>)
      requires expected.Awaited? ==>
        && |expected.value| == count && (forall c | c in expected.value :: ChildFits(c))
        && remaining == ChildrenBytes(expected.value) + expected.rest
      modifies this
      ensures res.Ok? ==>
        && |res.value| == count && (forall c | c in res.value :: ChildFits(c))
        && old(remaining) == ChildrenBytes(res.value) + remaining
      ensures expected.Met(res, remaining)
    {
      hide ChildBytes, ChildFits;
      ghost var awaited, all, rest := expected.Awaited?, [], [];
      if awaited {
        all, rest := expected.value, expected.rest;
        assert all[0..] == all;
      }
      var children: seq<ManifestChild> := [];
      assert [] + remaining == remaining;
      for i := 0 to count
        invariant |children| == i && (forall c | c in children :: ChildFits(c))
        invariant old(remaining) == ChildrenBytes(children) + remaining
        invariant awaited ==> children == all[..i] && remaining == ChildrenBytes(all[i..]) + rest
      {
        ghost var next := if awaited then Awaited(all[i], ChildrenBytes(all[i + 1..]) + rest) else Anything;
        if awaited {
          assert all[i..][1..] == all[i + 1..] && all[i] in all;
          assert (ChildBytes(all[i]) + ChildrenBytes(all[i + 1..])) + rest
            == ChildBytes(all[i]) + (ChildrenBytes(all[i + 1..]) + rest);
        }
        var c :- Child(next);
        OneMoreChild(children, c);
        assert ChildrenBytes(children) + (ChildBytes(c) + remaining) == ChildrenBytes(children + [c]) + remaining;
        children := children + [c];
      }
      if awaited {
        assert all[..count] == all && all[count..] == [] && [] + rest == rest;
      }
      return Ok(children);
    }
  }

  datatype PayloadHeader = PayloadHeader(prefix: Bytes, count: nat, totals: Totals)

  function HeaderBytes(h: PayloadHeader): Bytes {
    BigEndian(PAYLOAD_SCHEMA, 2) + (Counted(h.prefix) + (BigEndian(h.count, 4) + TotalsBytes(h.totals)))
  }

  predicate HeaderFits(h: PayloadHeader, limit: nat) {
    |h.prefix| <= MAX_PREFIX_BYTES && h.count <= limit && h.count < 0x1_0000_0000 && InRange(h.totals)
  }

  const NO_HEADER := PayloadHeader([], 0, MS.NOTHING)
  const NO_DIGEST: Digest32 := seq(32, i => 0)
  const NO_ENTRY := LeafEntry([], 0, 0, 0, NO_DIGEST)
  const NO_CHILD := ManifestChild(0, Leaf, NO_DIGEST, MS.NOTHING)

  lemma {:induction false} OneMoreEntry(entries: seq<LeafEntry>, e: LeafEntry)
    ensures EntriesBytes(entries + [e]) == EntriesBytes(entries) + EntryBytes(e)
    ensures TotalsOfEntries(entries + [e]) == MS.Plus(TotalsOfEntries(entries), Totals(1, e.size, |e.path|))
  {
    hide EntryBytes;
    if entries == [] {
      assert [] + [e] == [e] && [e][1..] == [];
    } else {
      assert (entries + [e])[1..] == entries[1..] + [e];
      OneMoreEntry(entries[1..], e);
    }
  }

  lemma {:induction false} OneMoreChild(children: seq<ManifestChild>, c: ManifestChild)
    ensures ChildrenBytes(children + [c]) == ChildrenBytes(children) + ChildBytes(c)
    ensures TotalsOfChildren(children + [c]) == MS.Plus(TotalsOfChildren(children), c.totals)
  {
    hide ChildBytes;
    if children == [] {
      assert [] + [c] == [c] && [c][1..] == [];
    } else {
      assert (children + [c])[1..] == children[1..] + [c];
      OneMoreChild(children[1..], c);
    }
  }

  lemma PayloadIsHeaderAndParts(h: PayloadHeader, parts: Bytes)
    ensures Payload(h.prefix, h.count, h.totals, parts) == HeaderBytes(h) + parts
  {
    hide BigEndian, Counted, TotalsBytes;
  }

  // ---------------------------------------------------------------- totals and the envelope

  lemma TotalsGrow(a: Totals, b: Totals)
    ensures InRange(MS.Plus(a, b)) ==> InRange(a)
  {
  }

  method AddUpEntries(entries: seq<LeafEntry>) returns (res: Result<Totals, CodecError>)
    ensures res.Ok? <==> InRange(TotalsOfEntries(entries))
    ensures res.Ok? ==> res.value == TotalsOfEntries(entries)
  {
    var totals := MS.NOTHING;
    assert entries[..0] == [];
    for i := 0 to |entries|
      invariant totals == TotalsOfEntries(entries[..i]) && InRange(totals)
    {
      assert entries[..i + 1] == entries[..i] + [entries[i]] && entries == entries[..i + 1] + entries[i + 1..];
      OneMoreEntry(entries[..i], entries[i]);
      EntriesTogether(entries[..i + 1], entries[i + 1..]);
      totals := MS.Plus(totals, Totals(1, entries[i].size, |entries[i].path|));
      TotalsGrow(totals, TotalsOfEntries(entries[i + 1..]));
      if totals.count > U64_MAX || totals.size > U64_MAX || totals.pathBytes > U64_MAX {
        return Err(Overflow);
      }
    }
    assert entries[..|entries|] == entries;
    return Ok(totals);
  }

  lemma PlusTogether(a: Totals, b: Totals, c: Totals)
    ensures MS.Plus(a, MS.Plus(b, c)) == MS.Plus(MS.Plus(a, b), c)
    ensures MS.Plus(MS.NOTHING, a) == a
  {
  }

  lemma {:induction false} EntriesTogether(a: seq<LeafEntry>, b: seq<LeafEntry>)
    ensures TotalsOfEntries(a + b) == MS.Plus(TotalsOfEntries(a), TotalsOfEntries(b))
  {
    hide MS.Plus;
    if a == [] {
      assert a + b == b;
      PlusTogether(TotalsOfEntries(b), TotalsOfEntries(b), TotalsOfEntries(b));
    } else {
      EntriesTogether(a[1..], b);
      assert (a + b)[1..] == a[1..] + b && (a + b)[0] == a[0];
      PlusTogether(Totals(1, a[0].size, |a[0].path|), TotalsOfEntries(a[1..]), TotalsOfEntries(b));
    }
  }

  method AddUpChildren(children: seq<ManifestChild>) returns (res: Result<Totals, CodecError>)
    ensures res.Ok? <==> InRange(TotalsOfChildren(children))
    ensures res.Ok? ==> res.value == TotalsOfChildren(children)
  {
    var totals := MS.NOTHING;
    assert children[..0] == [];
    for i := 0 to |children|
      invariant totals == TotalsOfChildren(children[..i]) && InRange(totals)
    {
      assert children[..i + 1] == children[..i] + [children[i]] && children == children[..i + 1] + children[i + 1..];
      OneMoreChild(children[..i], children[i]);
      ChildrenTogether(children[..i + 1], children[i + 1..]);
      totals := MS.Plus(totals, children[i].totals);
      TotalsGrow(totals, TotalsOfChildren(children[i + 1..]));
      if totals.count > U64_MAX || totals.size > U64_MAX || totals.pathBytes > U64_MAX {
        return Err(Overflow);
      }
    }
    assert children[..|children|] == children;
    return Ok(totals);
  }

  lemma {:induction false} ChildrenTogether(a: seq<ManifestChild>, b: seq<ManifestChild>)
    ensures TotalsOfChildren(a + b) == MS.Plus(TotalsOfChildren(a), TotalsOfChildren(b))
  {
    hide MS.Plus;
    if a == [] {
      assert a + b == b;
      PlusTogether(TotalsOfChildren(b), TotalsOfChildren(b), TotalsOfChildren(b));
    } else {
      ChildrenTogether(a[1..], b);
      assert (a + b)[1..] == a[1..] + b && (a + b)[0] == a[0];
      PlusTogether(a[0].totals, TotalsOfChildren(a[1..]), TotalsOfChildren(b));
    }
  }

  method Seal(kind: ChunkKind, payload: Bytes) returns (res: Result<Bytes, CodecError>)
    ensures res.Ok? <==> |Envelope(kind, payload)| <= MAX_MANIFEST_CHUNK_BYTES
    ensures res.Ok? ==> res.value == Envelope(kind, payload)
    ensures res.Err? ==> res.error.Limit?
  {
    if 16 + |payload| > MAX_MANIFEST_CHUNK_BYTES {
      return Err(Limit);
    }
    var stored := MAGIC;
    stored := stored + [KindByte(kind)] + [CODEC_VERSION];
    stored := stored + BigEndian(0, 2) + BigEndian(|payload|, 4);
    return Ok(stored + payload);
  }

  /** The payload of an envelope of this kind, accepted exactly if every byte of the envelope is as it is written. */
  method Open(stored: Bytes, kind: ChunkKind) returns (res: Result<Bytes, CodecError>)
    ensures res.Ok? <==>
      16 <= |stored| <= MAX_MANIFEST_CHUNK_BYTES && stored == Envelope(kind, stored[16..])
    ensures res.Ok? ==> res.value == stored[16..]
  {
    hide Envelope, BigEndian, FromBigEndian, Power, KindByte, MAGIC;
    if |stored| > MAX_MANIFEST_CHUNK_BYTES {
      return Err(Limit);
    }
    if |stored| < 16 {
      return Err(Invalid);
    }
    SplitEnvelope(stored, kind);
    OneByte(stored, 8, KindByte(kind));
    OneByte(stored, 9, CODEC_VERSION);
    if stored[0..8] != MAGIC {
      return Err(Invalid);
    }
    if stored[8] != KindByte(kind) {
      return Err(Invalid);
    }
    if stored[9] != CODEC_VERSION {
      return Err(Invalid);
    }
    NumbersFillTheirWidth(stored[10..12]);
    NumbersFillTheirWidth(stored[12..16]);
    PowersOfWidths();
    BigEndianRoundTrip(0, 2);
    BigEndianRoundTrip(|stored| - 16, 4);
    if FromBigEndian(stored[10..12]) != 0 {
      return Err(Invalid);
    }
    if FromBigEndian(stored[12..16]) != |stored| - 16 {
      return Err(Invalid);
    }
    return Ok(stored[16..]);
  }

  lemma TailSplits(s: Bytes, i: nat, a: Bytes, b: Bytes)
    requires i + |a| <= |s|
    ensures s[i..] == a + b <==> s[i..i + |a|] == a && s[i + |a|..] == b
  {
    assert s[i..] == s[i..i + |a|] + s[i + |a|..];
    assert (a + b)[..|a|] == a && (a + b)[|a|..] == b;
    assert s[i..][..|a|] == s[i..i + |a|] && s[i..][|a|..] == s[i + |a|..];
  }

  lemma OneByte(s: Bytes, i: nat, x: byte)
    requires i < |s|
    ensures s[i..i + 1] == [x] <==> s[i] == x
  {
    assert s[i..i + 1] == [s[i]];
  }

  lemma FivePieces(s: Bytes, a: Bytes, b: Bytes, c: Bytes, d: Bytes, e: Bytes, rest: Bytes)
    requires |a| == 8 && |b| == 1 && |c| == 1 && |d| == 2 && |e| == 4 && 16 <= |s|
    ensures s == a + (b + (c + (d + (e + rest)))) <==>
      s[0..8] == a && s[8..9] == b && s[9..10] == c && s[10..12] == d && s[12..16] == e && s[16..] == rest
  {
    assert s[0..] == s;
    TailSplits(s, 0, a, b + (c + (d + (e + rest))));
    TailSplits(s, 8, b, c + (d + (e + rest)));
    TailSplits(s, 9, c, d + (e + rest));
    TailSplits(s, 10, d, e + rest);
    TailSplits(s, 12, e, rest);
  }

  lemma EnvelopeIsPieces(kind: ChunkKind, payload: Bytes)
    ensures |MAGIC| == 8 && Envelope(kind, payload)
      == MAGIC + ([KindByte(kind)] + ([CODEC_VERSION] + (BigEndian(0, 2) + (BigEndian(|payload|, 4) + payload))))
  {
    hide BigEndian, KindByte;
  }

  lemma SplitEnvelope(stored: Bytes, kind: ChunkKind)
    requires 16 <= |stored|
    ensures stored == Envelope(kind, stored[16..]) <==>
      && stored[0..8] == MAGIC && stored[8..9] == [KindByte(kind)] && stored[9..10] == [CODEC_VERSION]
      && stored[10..12] == BigEndian(0, 2) && stored[12..16] == BigEndian(|stored[16..]|, 4)
  {
    hide *;
    var payload := stored[16..];
    EnvelopeIsPieces(kind, payload);
    FivePieces(stored, MAGIC, [KindByte(kind)], [CODEC_VERSION], BigEndian(0, 2), BigEndian(|payload|, 4), payload);
  }

  lemma EnvelopePayload(kind: ChunkKind, payload: Bytes)
    ensures |Envelope(kind, payload)| == 16 + |payload| && Envelope(kind, payload)[16..] == payload
  {
    hide BigEndian;
  }

  // ---------------------------------------------------------------- writing

  class Writer {
    var bytes: Bytes

    constructor ()
      ensures bytes == []
    {
      bytes := [];
    }

    method Raw(b: Bytes)
      modifies this
      ensures bytes == old(bytes) + b
    {
      bytes := bytes + b;
    }

    method Number(n: nat, width: nat)
      modifies this
      ensures bytes == old(bytes) + BigEndian(n, width)
    {
      Raw(BigEndian(n, width));
    }

    method CountedBytes(b: Bytes)
      modifies this
      ensures bytes == old(bytes) + Counted(b)
    {
      Number(|b|, 4);
      Raw(b);
      assert old(bytes) + BigEndian(|b|, 4) + b == old(bytes) + (BigEndian(|b|, 4) + b);
    }

    method Summary(t: Totals)
      modifies this
      ensures bytes == old(bytes) + TotalsBytes(t)
    {
      hide BigEndian;
      Number(t.count, 8);
      Number(t.size, 8);
      Number(t.pathBytes, 8);
      assert old(bytes) + BigEndian(t.count, 8) + BigEndian(t.size, 8) + BigEndian(t.pathBytes, 8)
        == old(bytes) + TotalsBytes(t);
    }

    method Header(h: PayloadHeader)
      modifies this
      ensures bytes == old(bytes) + HeaderBytes(h)
    {
      hide BigEndian, Counted, TotalsBytes;
      Number(PAYLOAD_SCHEMA, 2);
      CountedBytes(h.prefix);
      Number(h.count, 4);
      Summary(h.totals);
      assert old(bytes) + BigEndian(PAYLOAD_SCHEMA, 2) + Counted(h.prefix) + BigEndian(h.count, 4)
        + TotalsBytes(h.totals)
        == old(bytes) + HeaderBytes(h);
    }

    method Entry(e: LeafEntry) returns (res: Result<Unit, CodecError>)
      modifies this
      ensures res.Ok? <==> |e.path| <= MAX_EXACT_PATH_BYTES && e.nanoseconds < NANOSECONDS_IN_A_SECOND
      ensures res.Ok? ==> bytes == old(bytes) + EntryBytes(e)
    {
      hide BigEndian, Counted;
      if |e.path| > MAX_EXACT_PATH_BYTES {
        return Err(Limit);
      }
      if e.nanoseconds >= NANOSECONDS_IN_A_SECOND {
        return Err(Invalid);
      }
      CountedBytes(e.path);
      Number(e.size, 8);
      Number(Wrapped(e.seconds), 8);
      Number(e.nanoseconds, 4);
      Raw(e.objectId);
      assert old(bytes) + Counted(e.path) + BigEndian(e.size, 8) + BigEndian(Wrapped(e.seconds), 8)
        + BigEndian(e.nanoseconds, 4) + e.objectId == old(bytes) + EntryBytes(e);
      return Ok(Done);
    }

    method Child(c: ManifestChild) returns (res: Result<Unit, CodecError>)
      modifies this
      ensures res.Ok? <==> !c.kind.Root?
      ensures res.Ok? ==> bytes == old(bytes) + ChildBytes(c)
    {
      hide TotalsBytes;
      Raw([c.edge]);
      if c.kind.Root? {
        return Err(Invalid);
      }
      Raw([if c.kind.Node? then 2 else 3]);
      Raw(c.id);
      Summary(c.totals);
      assert old(bytes) + [c.edge] + [KindByte(c.kind)] + c.id + TotalsBytes(c.totals) == old(bytes) + ChildBytes(c);
      return Ok(Done);
    }

    method Entries(entries: seq<LeafEntry>, ghost utf8: Bytes -> bool) returns (res: Result<Unit, CodecError>)
      requires forall e | e in entries :: utf8(e.path)
      modifies this
      ensures res.Ok? <==> forall e | e in entries :: EntryFits(e, utf8)
      ensures res.Ok? ==> bytes == old(bytes) + EntriesBytes(entries)
    {
      hide EntryBytes;
      assert entries[..0] == [] && bytes + [] == bytes;
      for i := 0 to |entries|
        invariant bytes == old(bytes) + EntriesBytes(entries[..i])
        invariant forall k | 0 <= k < i :: EntryFits(entries[k], utf8)
      {
        var e := entries[i];
        assert e in entries && entries[..i + 1] == entries[..i] + [e];
        OneMoreEntry(entries[..i], e);
        var _ :- Entry(e);
        assert old(bytes) + EntriesBytes(entries[..i]) + EntryBytes(e)
          == old(bytes) + (EntriesBytes(entries[..i]) + EntryBytes(e));
      }
      assert entries[..|entries|] == entries;
      return Ok(Done);
    }

    method Children(children: seq<ManifestChild>) returns (res: Result<Unit, CodecError>)
      requires forall c | c in children :: InRange(c.totals)
      modifies this
      ensures res.Ok? <==> forall c | c in children :: ChildFits(c)
      ensures res.Ok? ==> bytes == old(bytes) + ChildrenBytes(children)
    {
      hide ChildBytes;
      assert children[..0] == [] && bytes + [] == bytes;
      for i := 0 to |children|
        invariant bytes == old(bytes) + ChildrenBytes(children[..i])
        invariant forall k | 0 <= k < i :: ChildFits(children[k])
      {
        var c := children[i];
        assert c in children && children[..i + 1] == children[..i] + [c];
        OneMoreChild(children[..i], c);
        var _ :- Child(c);
        assert old(bytes) + ChildrenBytes(children[..i]) + ChildBytes(c)
          == old(bytes) + (ChildrenBytes(children[..i]) + ChildBytes(c));
      }
      assert children[..|children|] == children;
      return Ok(Done);
    }
  }

  /** A leaf is stored exactly if it keeps to every limit; its texts are UTF-8 by their type. */
  method EncodeLeaf(leaf: ManifestLeaf, ghost utf8: Bytes -> bool) returns (res: Result<Bytes, CodecError>)
    requires forall e | e in leaf.entries :: utf8(e.path)
    ensures res.Ok? <==> LeafFits(leaf, utf8)
    ensures res.Ok? ==> res.value == LeafBytes(leaf)
  {
    hide HeaderBytes, EntryBytes, Envelope, Payload;
    if |leaf.prefix| > MAX_PREFIX_BYTES || |leaf.entries| > MAX_LEAF_ENTRIES {
      return Err(Limit);
    }
    var totals :- AddUpEntries(leaf.entries);
    var writer := new Writer();
    var header := PayloadHeader(leaf.prefix, |leaf.entries|, totals);
    writer.Header(header);
    assert writer.bytes == HeaderBytes(header);
    var _ :- writer.Entries(leaf.entries, utf8);
    PayloadIsHeaderAndParts(header, EntriesBytes(leaf.entries));
    res := Seal(Leaf, writer.bytes);
  }

  method EncodeNode(node: ManifestNode) returns (res: Result<Bytes, CodecError>)
    requires forall c | c in node.children :: InRange(c.totals)
    ensures res.Ok? <==> NodeFits(node)
    ensures res.Ok? ==> res.value == NodeBytes(node)
  {
    hide HeaderBytes, ChildBytes, Envelope, Payload;
    if |node.prefix| > MAX_PREFIX_BYTES || |node.children| > MAX_NODE_CHILDREN {
      return Err(Limit);
    }
    var totals :- AddUpChildren(node.children);
    var writer := new Writer();
    var header := PayloadHeader(node.prefix, |node.children|, totals);
    writer.Header(header);
    assert writer.bytes == HeaderBytes(header);
    var _ :- writer.Children(node.children);
    PayloadIsHeaderAndParts(header, ChildrenBytes(node.children));
    res := Seal(Node, writer.bytes);
  }

  // ---------------------------------------------------------------- reading back

  /** Bytes decode exactly if they are the stored form of some leaf, namely of the one they decode to. */
  method DecodeLeaf(stored: Bytes, utf8: Bytes -> bool, ghost expected: Option<ManifestLeaf>)
    returns (res: Result<ManifestLeaf, CodecError>)
    ensures res.Ok? ==> LeafFits(res.value, utf8) && stored == LeafBytes(res.value)
    ensures expected.Some? && LeafFits(expected.value, utf8) && stored == LeafBytes(expected.value) ==>
      res == Ok(expected.value)
  {
    hide HeaderBytes, EntryBytes, Envelope, Payload;
    ghost var awaited := expected.Some? && LeafFits(expected.value, utf8) && stored == LeafBytes(expected.value);
    ghost var leaf := if awaited then expected.value else ManifestLeaf([], []);
    ghost var before := PayloadHeader(leaf.prefix, |leaf.entries|, TotalsOfEntries(leaf.entries));
    ghost var parts := EntriesBytes(leaf.entries);
    EnvelopePayload(Leaf, Payload(leaf.prefix, |leaf.entries|, TotalsOfEntries(leaf.entries), parts));
    PayloadIsHeaderAndParts(before, parts);
    var payload :- Open(stored, Leaf);
    var reader := new Reader(payload);
    var header :- reader.Header(MAX_LEAF_ENTRIES, if awaited then Awaited(before, parts) else Anything);
    assert parts + [] == parts;
    var entries :- reader.Entries(header.count, utf8, if awaited then Awaited(leaf.entries, []) else Anything);
    if reader.remaining != [] {
      return Err(Invalid);
    }
    var totals :- AddUpEntries(entries);
    if totals != header.totals {
      return Err(Invalid);
    }
    assert EntriesBytes(entries) + [] == EntriesBytes(entries);
    PayloadIsHeaderAndParts(header, EntriesBytes(entries));
    return Ok(ManifestLeaf(header.prefix, entries));
  }

  method DecodeNode(stored: Bytes, ghost expected: Option<ManifestNode>) returns (res: Result<ManifestNode, CodecError>)
    ensures res.Ok? ==> NodeFits(res.value) && stored == NodeBytes(res.value)
    ensures expected.Some? && NodeFits(expected.value) && stored == NodeBytes(expected.value) ==>
      res == Ok(expected.value)
  {
    hide HeaderBytes, ChildBytes, Envelope, Payload;
    ghost var awaited := expected.Some? && NodeFits(expected.value) && stored == NodeBytes(expected.value);
    ghost var node := if awaited then expected.value else ManifestNode([], []);
    ghost var before := PayloadHeader(node.prefix, |node.children|, TotalsOfChildren(node.children));
    ghost var parts := ChildrenBytes(node.children);
    EnvelopePayload(Node, Payload(node.prefix, |node.children|, TotalsOfChildren(node.children), parts));
    PayloadIsHeaderAndParts(before, parts);
    var payload :- Open(stored, Node);
    var reader := new Reader(payload);
    var header :- reader.Header(MAX_NODE_CHILDREN, if awaited then Awaited(before, parts) else Anything);
    assert parts + [] == parts;
    var children :- reader.Children(header.count, if awaited then Awaited(node.children, []) else Anything);
    if reader.remaining != [] {
      return Err(Invalid);
    }
    var totals :- AddUpChildren(children);
    if totals != header.totals {
      return Err(Invalid);
    }
    assert ChildrenBytes(children) + [] == ChildrenBytes(children);
    PayloadIsHeaderAndParts(header, ChildrenBytes(children));
    return Ok(ManifestNode(header.prefix, children));
  }

  // ---------------------------------------------------------------- both ways

  /** What was stored is read back. */
  method StoreAndLoadLeaf(leaf: ManifestLeaf, utf8: Bytes -> bool) returns (res: Result<ManifestLeaf, CodecError>)
    requires forall e | e in leaf.entries :: utf8(e.path)
    ensures if LeafFits(leaf, utf8) then res == Ok(leaf) else res.Err?
  {
    hide LeafFits, LeafBytes;
    var stored :- EncodeLeaf(leaf, utf8);
    res := DecodeLeaf(stored, utf8, Some(leaf));
  }

  method StoreAndLoadNode(node: ManifestNode) returns (res: Result<ManifestNode, CodecError>)
    requires forall c | c in node.children :: InRange(c.totals)
    ensures if NodeFits(node) then res == Ok(node) else res.Err?
  {
    hide NodeFits, NodeBytes;
    var stored :- EncodeNode(node);
    res := DecodeNode(stored, Some(node));
  }

  /** Validation encodes a decoded leaf again and compares: that comparison never fails. */
  method EncodesAsStored(stored: Bytes, utf8: Bytes -> bool) returns (res: Result<bool, CodecError>)
    ensures res.Ok? ==> res.value
    ensures res.Ok? <==> exists leaf :: LeafFits(leaf, utf8) && stored == LeafBytes(leaf)
  {
    hide LeafBytes;
    ghost var expected: Option<ManifestLeaf> := None;
    if some :| LeafFits(some, utf8) && stored == LeafBytes(some) {
      expected := Some(some);
    }
    var leaf :- DecodeLeaf(stored, utf8, expected);
    var canonical := EncodeLeaf(leaf, utf8);
    return Ok(canonical == Ok(stored));
  }
}
