/**
 The bytes hashed into the id of a maintenance plan (maintenance.rs). A preview's id stands for
 its candidates only if different plans never feed the hash the same bytes, whatever the
 lengths and contents of their fields; a decoder that recovers every plan shows that.
 */
module PlanTranscript {
  import opened Outcomes
  import opened WireBytes

  type u64 = x: nat | x < 0x1_0000_0000_0000_0000

  const U64_BYTES: nat := 8

  /** A path; the transcript can only hold the ones that are valid UTF-8. */
  datatype Path = Utf8(text: Bytes) | NotUtf8(raw: Bytes)

  datatype GcObject = GcObject(id: Bytes, path: Path, size: u64)

  datatype GcFile = GcFile(path: Path, size: u64)

  datatype StorageGcPlan = StorageGcPlan(objects: seq<GcObject>, chunks: seq<GcFile>, inventoryNodes: seq<GcFile>)

  /** A temporary file directly inside the repository's `tmp` directory. */
  datatype RepositoryFile = RepositoryFile(name: Path, size: u64)

  datatype TempCleanupPlan = TempCleanupPlan(files: seq<GcFile>, repositoryFiles: seq<RepositoryFile>)

  datatype PlanError = FieldTooLarge | PathNotUtf8 | FingerprintMissing

  function Ascii(s: string): Bytes {
    seq(|s|, i requires 0 <= i < |s| => s[i] as int % 0x100)
  }

  const GC_DOMAIN: Bytes := Ascii("checkpo.storage-gc-plan.v2") + [0]
  const TEMP_DOMAIN: Bytes := Ascii("checkpo.temp-cleanup-plan.v1") + [0]

  const TAG_OBJECT: byte := 'o' as int
  const TAG_CHUNK: byte := 'm' as int
  const TAG_NODE: byte := 'i' as int
  const TAG_PROJECT: byte := 'p' as int
  const TAG_REPOSITORY: byte := 'r' as int

  // ---------------------------------------------------------------- encoding

  function U64Bytes(n: u64): (b: Bytes)
    ensures |b| == U64_BYTES && FromBigEndian(b) == n
  {
    PowersOfWidths();
    BigEndianRoundTrip(n, U64_BYTES);
    BigEndian(n, U64_BYTES)
  }

  predicate Encodable(value: Bytes) {
    |value| < 0x1_0000_0000_0000_0000
  }

  function Field(value: Bytes): Bytes
    requires Encodable(value)
  {
    U64Bytes(|value|) + value
  }

  /** One candidate as it enters the transcript; only objects carry an id. */
  datatype Candidate = Candidate(tag: byte, id: Option<Bytes>, path: Path, size: u64)

  datatype Record = Record(tag: byte, id: Option<Bytes>, path: Bytes, size: u64, fingerprint: Bytes)

  predicate ValidRecord(r: Record) {
    (r.id.Some? <==> r.tag == TAG_OBJECT) && (r.id.Some? ==> Encodable(r.id.value)) && Encodable(r.path)
      && Encodable(r.fingerprint)
  }

  function EncodeRecord(r: Record): Bytes
    requires ValidRecord(r)
  {
    [r.tag] + ((if r.id.Some? then Field(r.id.value) else [])
      + (Field(r.path) + (U64Bytes(r.size) + Field(r.fingerprint))))
  }

  predicate ValidRecords(rs: seq<Record>) {
    forall r | r in rs :: ValidRecord(r)
  }

  function EncodeRecords(rs: seq<Record>): Bytes
    requires ValidRecords(rs)
  {
    if rs == [] then [] else EncodeRecord(rs[0]) + EncodeRecords(rs[1..])
  }

  function Transcript(domain: Bytes, project: Bytes, head: Bytes, rs: seq<Record>): Bytes
    requires Encodable(project) && Encodable(head) && ValidRecords(rs)
  {
    domain + (Field(project) + (Field(head) + EncodeRecords(rs)))
  }

  function Header(domain: Bytes, project: Bytes, head: Bytes): Bytes
    requires Encodable(project) && Encodable(head)
  {
    domain + Field(project) + Field(head)
  }

  lemma HeaderThenRecords(domain: Bytes, project: Bytes, head: Bytes, rs: seq<Record>)
    requires Encodable(project) && Encodable(head) && ValidRecords(rs)
    ensures Header(domain, project, head) + EncodeRecords(rs) == Transcript(domain, project, head, rs)
  {
    hide Field, EncodeRecords;
  }

  // ---------------------------------------------------------------- decoding

  datatype Parsed<T> = Parsed(value: T, rest: Bytes)

  function ReadField(b: Bytes): Option<Parsed<Bytes>> {
    if |b| < U64_BYTES then None
    else
      var n := FromBigEndian(b[..U64_BYTES]);
      if |b| < U64_BYTES + n then None
      else Some(Parsed(b[U64_BYTES..U64_BYTES + n], b[U64_BYTES + n..]))
  }

  function ReadU64(b: Bytes): Option<Parsed<nat>> {
    if |b| < U64_BYTES then None else Some(Parsed(FromBigEndian(b[..U64_BYTES]), b[U64_BYTES..]))
  }

  function ReadTail(tag: byte, id: Option<Bytes>, b: Bytes): Option<Parsed<Record>> {
    var path := ReadField(b);
    if path.None? then None
    else
      var size := ReadU64(path.value.rest);
      if size.None? || size.value.value >= 0x1_0000_0000_0000_0000 then None
      else
        var fingerprint := ReadField(size.value.rest);
        if fingerprint.None? then None
        else Some(Parsed(Record(tag, id, path.value.value, size.value.value, fingerprint.value.value),
          fingerprint.value.rest))
  }

  function ReadRecord(b: Bytes): Option<Parsed<Record>> {
    if b == [] then None
    else if b[0] != TAG_OBJECT then ReadTail(b[0], None, b[1..])
    else
      var id := ReadField(b[1..]);
      if id.None? then None else ReadTail(b[0], Some(id.value.value), id.value.rest)
  }

  function ReadRecords(b: Bytes): Option<seq<Record>>
    decreases |b|
  {
    if b == [] then Some([])
    else
      var first := ReadRecord(b);
      if first.None? || |first.value.rest| >= |b| then None
      else
        var others := ReadRecords(first.value.rest);
        if others.None? then None else Some([first.value.value] + others.value)
  }

  lemma FieldIsRead(value: Bytes, rest: Bytes)
    requires Encodable(value)
    ensures ReadField(Field(value) + rest) == Some(Parsed(value, rest))
  {
    var b := Field(value) + rest;
    assert b[..U64_BYTES] == U64Bytes(|value|);
    assert b[U64_BYTES..U64_BYTES + |value|] == value;
    assert b[U64_BYTES + |value|..] == rest;
  }

  lemma U64IsRead(n: nat, rest: Bytes)
    requires n < 0x1_0000_0000_0000_0000
    ensures ReadU64(U64Bytes(n) + rest) == Some(Parsed(n, rest))
  {
    var b := U64Bytes(n) + rest;
    assert b[..U64_BYTES] == U64Bytes(n) && b[U64_BYTES..] == rest;
  }

  lemma TailIsRead(tag: byte, id: Option<Bytes>, path: Bytes, size: u64, fingerprint: Bytes, rest: Bytes)
    requires Encodable(path) && Encodable(fingerprint)
    ensures ReadTail(tag, id, (Field(path) + (U64Bytes(size) + Field(fingerprint))) + rest)
         == Some(Parsed(Record(tag, id, path, size, fingerprint), rest))
  {
    hide ReadField, ReadU64, Field, U64Bytes;
    var last := Field(fingerprint) + rest;
    var middle := U64Bytes(size) + last;
    assert (Field(path) + (U64Bytes(size) + Field(fingerprint))) + rest == Field(path) + middle;
    FieldIsRead(path, middle);
    U64IsRead(size, last);
    FieldIsRead(fingerprint, rest);
  }

  lemma RecordIsRead(r: Record, rest: Bytes)
    requires ValidRecord(r)
    ensures ReadRecord(EncodeRecord(r) + rest) == Some(Parsed(r, rest))
  {
    hide ReadField, ReadTail, Field, U64Bytes;
    var tail := Field(r.path) + (U64Bytes(r.size) + Field(r.fingerprint));
    var b := EncodeRecord(r) + rest;
    TailIsRead(r.tag, r.id, r.path, r.size, r.fingerprint, rest);
    if r.id.Some? {
      assert b[1..] == Field(r.id.value) + (tail + rest);
      FieldIsRead(r.id.value, tail + rest);
    } else {
      assert b[1..] == tail + rest;
    }
  }

  lemma {:induction false} RecordsAreRead(rs: seq<Record>)
    requires ValidRecords(rs)
    ensures ReadRecords(EncodeRecords(rs)) == Some(rs)
  {
    hide ReadRecord, EncodeRecord;
    if rs != [] {
      RecordIsRead(rs[0], EncodeRecords(rs[1..]));
      RecordStartsWithTag(rs[0]);
      RecordsAreRead(rs[1..]);
      assert rs == [rs[0]] + rs[1..];
      assert EncodeRecords(rs) == EncodeRecord(rs[0]) + EncodeRecords(rs[1..]);
    }
  }

  lemma RecordStartsWithTag(r: Record)
    requires ValidRecord(r)
    ensures |EncodeRecord(r)| > 0
  {
  }

  /** Equal transcripts of one kind of plan hold the same project, head and records. */
  lemma TranscriptDecodes(domain: Bytes, p1: Bytes, h1: Bytes, rs1: seq<Record>, p2: Bytes, h2: Bytes, rs2: seq<Record>)
    requires Encodable(p1) && Encodable(h1) && ValidRecords(rs1) && Encodable(p2) && Encodable(h2) && ValidRecords(rs2)
    requires Transcript(domain, p1, h1, rs1) == Transcript(domain, p2, h2, rs2)
    ensures p1 == p2 && h1 == h2 && rs1 == rs2
  {
    hide ReadField, ReadRecords, EncodeRecords, Field;
    SamePrefix(domain, Field(p1) + (Field(h1) + EncodeRecords(rs1)), Field(p2) + (Field(h2) + EncodeRecords(rs2)));
    FieldIsRead(p1, Field(h1) + EncodeRecords(rs1));
    FieldIsRead(p2, Field(h2) + EncodeRecords(rs2));
    FieldIsRead(h1, EncodeRecords(rs1));
    FieldIsRead(h2, EncodeRecords(rs2));
    RecordsAreRead(rs1);
    RecordsAreRead(rs2);
  }

  lemma SamePrefix(prefix: Bytes, a: Bytes, b: Bytes)
    requires prefix + a == prefix + b
    ensures a == b
  {
    assert a == (prefix + a)[|prefix|..] && b == (prefix + b)[|prefix|..];
  }

  // ---------------------------------------------------------------- plans as records

  type Fingerprints = map<Path, Bytes>

  predicate Hashable(c: Candidate, fingerprints: Fingerprints) {
    && (c.id.Some? ==> Encodable(c.id.value)) && c.path.Utf8? && Encodable(c.path.text)
    && c.path in fingerprints && Encodable(fingerprints[c.path])
  }

  predicate AllHashable(cs: seq<Candidate>, fingerprints: Fingerprints) {
    forall c | c in cs :: Hashable(c, fingerprints)
  }

  function RecordOf(c: Candidate, fingerprints: Fingerprints): (r: Record)
    requires Hashable(c, fingerprints)
    ensures (c.id.Some? <==> c.tag == TAG_OBJECT) ==> ValidRecord(r)
  {
    Record(c.tag, c.id, c.path.text, c.size, fingerprints[c.path])
  }

  predicate Tagged(cs: seq<Candidate>) {
    forall c | c in cs :: c.id.Some? <==> c.tag == TAG_OBJECT
  }

  function RecordsOf(cs: seq<Candidate>, fingerprints: Fingerprints): (rs: seq<Record>)
    requires Tagged(cs) && AllHashable(cs, fingerprints)
    ensures ValidRecords(rs)
    ensures |rs| == |cs| && forall i | 0 <= i < |cs| :: rs[i] == RecordOf(cs[i], fingerprints)
  {
    var rs := seq(|cs|, i requires 0 <= i < |cs| => assert cs[i] in cs; RecordOf(cs[i], fingerprints));
    assert forall i | 0 <= i < |cs| ::
      rs[i] == RecordOf(cs[i], fingerprints) && (cs[i].id.Some? <==> cs[i].tag == TAG_OBJECT);
    rs
  }

  function ObjectCandidates(objects: seq<GcObject>): (cs: seq<Candidate>)
    ensures Tagged(cs) && forall c | c in cs :: c.tag == TAG_OBJECT
  {
    seq(|objects|,
      i requires 0 <= i < |objects| => Candidate(TAG_OBJECT, Some(objects[i].id), objects[i].path, objects[i].size))
  }

  function FileCandidates(tag: byte, files: seq<GcFile>): (cs: seq<Candidate>)
    requires tag != TAG_OBJECT
    ensures Tagged(cs) && forall c | c in cs :: c.tag == tag
  {
    seq(|files|, i requires 0 <= i < |files| => Candidate(tag, None, files[i].path, files[i].size))
  }

  function UnderTmp(name: Path): Path {
    match name
    case Utf8(text) => Utf8(Ascii("tmp/") + text)
    case NotUtf8(raw) => NotUtf8(Ascii("tmp/") + raw)
  }

  function RepositoryCandidates(files: seq<RepositoryFile>): (cs: seq<Candidate>)
    ensures Tagged(cs) && forall c | c in cs :: c.tag == TAG_REPOSITORY
  {
    seq(|files|, i requires 0 <= i < |files| => Candidate(TAG_REPOSITORY, None, UnderTmp(files[i].name), files[i].size))
  }

  /** Everything a GC plan would delete, in the order it is hashed. */
  function GcCandidates(plan: StorageGcPlan): seq<Candidate> {
    ObjectCandidates(plan.objects)
      + (FileCandidates(TAG_CHUNK, plan.chunks) + FileCandidates(TAG_NODE, plan.inventoryNodes))
  }

  function TempCandidates(plan: TempCleanupPlan): seq<Candidate> {
    FileCandidates(TAG_PROJECT, plan.files) + RepositoryCandidates(plan.repositoryFiles)
  }

  // ---------------------------------------------------------------- hashing

  class PlanHasher {
    /** Every byte given to the hash so far. */
    var transcript: Bytes

    constructor ()
      ensures transcript == []
    {
      transcript := [];
    }

    method Update(b: Bytes)
      modifies this
      ensures transcript == old(transcript) + b
    {
      transcript := transcript + b;
    }

    method HashField(value: Bytes) returns (res: Result<Unit, PlanError>)
      modifies this
      ensures res.Ok? <==> Encodable(value)
      ensures res.Ok? ==> transcript == old(transcript) + Field(value)
    {
      if |value| >= 0x1_0000_0000_0000_0000 {
        return Err(FieldTooLarge);
      }
      Update(U64Bytes(|value|));
      Update(value);
      return Ok(Done);
    }

    /** The domain, then the project and the inventory head the plan was made for. */
    method Begin(domain: Bytes, project: Bytes, head: Bytes) returns (res: Result<Unit, PlanError>)
      requires transcript == []
      modifies this
      ensures res.Ok? <==> Encodable(project) && Encodable(head)
      ensures res.Ok? ==> transcript == Header(domain, project, head)
    {
      hide Field;
      Update(domain);
      var _ :- HashField(project);
      var _ :- HashField(head);
      return Ok(Done);
    }

    method HashPath(path: Path) returns (res: Result<Unit, PlanError>)
      modifies this
      ensures res.Ok? <==> path.Utf8? && Encodable(path.text)
      ensures res.Ok? ==> transcript == old(transcript) + Field(path.text)
    {
      if path.NotUtf8? {
        return Err(PathNotUtf8);
      }
      res := HashField(path.text);
    }

    method HashCandidate(c: Candidate, fingerprints: Fingerprints) returns (res: Result<Unit, PlanError>)
      requires c.id.Some? <==> c.tag == TAG_OBJECT
      modifies this
      ensures res.Ok? <==> Hashable(c, fingerprints)
      ensures res.Ok? ==> transcript == old(transcript) + EncodeRecord(RecordOf(c, fingerprints))
    {
      hide Field;
      Update([c.tag]);
      if c.id.Some? {
        var _ :- HashField(c.id.value);
      }
      var _ :- HashPath(c.path);
      Update(U64Bytes(c.size));
      if c.path !in fingerprints {
        return Err(FingerprintMissing);
      }
      res := HashField(fingerprints[c.path]);
    }

    method HashCandidates(cs: seq<Candidate>, fingerprints: Fingerprints) returns (res: Result<Unit, PlanError>)
      requires Tagged(cs)
      modifies this
      ensures res.Ok? <==> AllHashable(cs, fingerprints)
      ensures res.Ok? ==> transcript == old(transcript) + EncodeRecords(RecordsOf(cs, fingerprints))
    {
      hide EncodeRecord, Hashable;
      assert cs[..0] == [];
      for i := 0 to |cs|
        invariant Tagged(cs[..i]) && AllHashable(cs[..i], fingerprints)
        invariant transcript == old(transcript) + EncodeRecords(RecordsOf(cs[..i], fingerprints))
      {
        assert cs[i] in cs;
        var _ :- HashCandidate(cs[i], fingerprints);
        assert cs[..i + 1] == cs[..i] + [cs[i]];
        OneMoreRecord(cs[..i], cs[i], fingerprints);
      }
      assert cs[..|cs|] == cs;
      return Ok(Done);
    }
  }

  lemma {:induction false} EncodeConcat(a: seq<Record>, b: seq<Record>)
    requires ValidRecords(a) && ValidRecords(b)
    ensures ValidRecords(a + b) && EncodeRecords(a + b) == EncodeRecords(a) + EncodeRecords(b)
  {
    hide EncodeRecord, ValidRecord;
    if a == [] {
      assert a + b == b;
    } else {
      EncodeConcat(a[1..], b);
      assert (a + b)[1..] == a[1..] + b;
    }
  }

  lemma OneMoreRecord(cs: seq<Candidate>, c: Candidate, fingerprints: Fingerprints)
    requires Tagged(cs) && AllHashable(cs, fingerprints) && Hashable(c, fingerprints)
      && (c.id.Some? <==> c.tag == TAG_OBJECT)
    ensures Tagged(cs + [c]) && AllHashable(cs + [c], fingerprints)
    ensures EncodeRecords(RecordsOf(cs + [c], fingerprints))
         == EncodeRecords(RecordsOf(cs, fingerprints)) + EncodeRecord(RecordOf(c, fingerprints))
  {
    ConcatRecords(cs, [c], fingerprints);
    assert RecordsOf([c], fingerprints) == [RecordOf(c, fingerprints)];
    assert EncodeRecords([RecordOf(c, fingerprints)]) == EncodeRecord(RecordOf(c, fingerprints)) + [];
  }

  lemma ConcatRecords(a: seq<Candidate>, b: seq<Candidate>, fingerprints: Fingerprints)
    requires Tagged(a) && Tagged(b) && AllHashable(a, fingerprints) && AllHashable(b, fingerprints)
    ensures Tagged(a + b) && AllHashable(a + b, fingerprints)
    ensures EncodeRecords(RecordsOf(a + b, fingerprints))
         == EncodeRecords(RecordsOf(a, fingerprints)) + EncodeRecords(RecordsOf(b, fingerprints))
  {
    hide EncodeRecord, EncodeRecords;
    assert RecordsOf(a + b, fingerprints) == RecordsOf(a, fingerprints) + RecordsOf(b, fingerprints);
    EncodeConcat(RecordsOf(a, fingerprints), RecordsOf(b, fingerprints));
  }

  /** What is hashed for any list of candidates; defined when every one of them can be hashed. */
  ghost predicate CanHash(project: Bytes, head: Bytes, cs: seq<Candidate>, fingerprints: Fingerprints) {
    Encodable(project) && Encodable(head) && Tagged(cs) && AllHashable(cs, fingerprints)
  }

  ghost function Hashed(domain: Bytes, project: Bytes, head: Bytes, cs: seq<Candidate>,
                        fingerprints: Fingerprints): Bytes
    requires CanHash(project, head, cs, fingerprints)
  {
    Transcript(domain, project, head, RecordsOf(cs, fingerprints))
  }

  lemma HashableConcat(a: seq<Candidate>, b: seq<Candidate>, fingerprints: Fingerprints)
    ensures AllHashable(a + b, fingerprints) <==> AllHashable(a, fingerprints) && AllHashable(b, fingerprints)
  {
    hide Hashable;
    assert forall c | c in a :: c in a + b;
    assert forall c | c in b :: c in a + b;
  }

  lemma HashedInTwo(domain: Bytes, project: Bytes, head: Bytes, a: seq<Candidate>, b: seq<Candidate>,
                    fingerprints: Fingerprints)
    requires Encodable(project) && Encodable(head) && Tagged(a) && Tagged(b)
    requires AllHashable(a, fingerprints) && AllHashable(b, fingerprints)
    ensures CanHash(project, head, a + b, fingerprints)
    ensures (Header(domain, project, head) + EncodeRecords(RecordsOf(a, fingerprints)))
      + EncodeRecords(RecordsOf(b, fingerprints))
         == Hashed(domain, project, head, a + b, fingerprints)
  {
    hide AllHashable, RecordsOf, EncodeRecords, Header, Transcript, ValidRecords, Encodable;
    ConcatRecords(a, b, fingerprints);
    HeaderThenRecords(domain, project, head, RecordsOf(a + b, fingerprints));
  }

  method StorageGcPlanTranscript(project: Bytes, head: Bytes, plan: StorageGcPlan, fingerprints: Fingerprints)
    returns (res: Result<Bytes, PlanError>)
    ensures res.Ok? <==> CanHash(project, head, GcCandidates(plan), fingerprints)
    ensures res.Ok? ==> res.value == Hashed(GC_DOMAIN, project, head, GcCandidates(plan), fingerprints)
  {
    hide AllHashable, RecordsOf, EncodeRecords, Header, Transcript, Encodable, ObjectCandidates, FileCandidates, Hashed;
    var hasher := new PlanHasher();
    var objects, chunks, nodes :=
      ObjectCandidates(plan.objects), FileCandidates(TAG_CHUNK, plan.chunks),
      FileCandidates(TAG_NODE, plan.inventoryNodes);
    HashableConcat(objects, chunks + nodes, fingerprints);
    HashableConcat(chunks, nodes, fingerprints);
    var _ :- hasher.Begin(GC_DOMAIN, project, head);
    var _ :- hasher.HashCandidates(objects, fingerprints);
    var _ :- hasher.HashCandidates(chunks, fingerprints);
    var _ :- hasher.HashCandidates(nodes, fingerprints);
    ConcatRecords(chunks, nodes, fingerprints);
    HashedInTwo(GC_DOMAIN, project, head, objects, chunks + nodes, fingerprints);
    return Ok(hasher.transcript);
  }

  method TempCleanupPlanTranscript(project: Bytes, head: Bytes, plan: TempCleanupPlan, fingerprints: Fingerprints)
    returns (res: Result<Bytes, PlanError>)
    ensures res.Ok? <==> CanHash(project, head, TempCandidates(plan), fingerprints)
    ensures res.Ok? ==> res.value == Hashed(TEMP_DOMAIN, project, head, TempCandidates(plan), fingerprints)
  {
    hide AllHashable, RecordsOf, EncodeRecords, Header, Transcript, Encodable, RepositoryCandidates, FileCandidates,
         Hashed;
    var hasher := new PlanHasher();
    var files, repositoryFiles := FileCandidates(TAG_PROJECT, plan.files), RepositoryCandidates(plan.repositoryFiles);
    HashableConcat(files, repositoryFiles, fingerprints);
    var _ :- hasher.Begin(TEMP_DOMAIN, project, head);
    var _ :- hasher.HashCandidates(files, fingerprints);
    var _ :- hasher.HashCandidates(repositoryFiles, fingerprints);
    HashedInTwo(TEMP_DOMAIN, project, head, files, repositoryFiles, fingerprints);
    return Ok(hasher.transcript);
  }

  // ---------------------------------------------------------------- what a transcript determines

  /** The same candidates, each with the same fingerprint. */
  ghost predicate SameTargets(cs1: seq<Candidate>, f1: Fingerprints, cs2: seq<Candidate>, f2: Fingerprints) {
    cs1 == cs2 && forall c | c in cs1 :: c.path in f1 && c.path in f2 && f1[c.path] == f2[c.path]
  }

  lemma HashedDetermines(domain: Bytes, p1: Bytes, h1: Bytes, cs1: seq<Candidate>, f1: Fingerprints,
                         p2: Bytes, h2: Bytes, cs2: seq<Candidate>, f2: Fingerprints)
    requires CanHash(p1, h1, cs1, f1) && CanHash(p2, h2, cs2, f2)
    requires Hashed(domain, p1, h1, cs1, f1) == Hashed(domain, p2, h2, cs2, f2)
    ensures p1 == p2 && h1 == h2 && SameTargets(cs1, f1, cs2, f2)
  {
    hide Transcript, ValidRecord;
    TranscriptDecodes(domain, p1, h1, RecordsOf(cs1, f1), p2, h2, RecordsOf(cs2, f2));
    var rs := RecordsOf(cs1, f1);
    assert |cs1| == |rs| == |cs2|;
    forall i | 0 <= i < |cs1|
      ensures cs1[i] == cs2[i] && cs1[i].path in f1 && cs1[i].path in f2 && f1[cs1[i].path] == f2[cs1[i].path]
    {
      assert cs1[i] in cs1 && cs2[i] in cs2;
      assert rs[i] == RecordOf(cs1[i], f1) == RecordOf(cs2[i], f2);
    }
  }

  function Run(tag: byte, cs: seq<Candidate>): seq<Candidate> {
    if cs == [] || cs[0].tag != tag then [] else [cs[0]] + Run(tag, cs[1..])
  }

  lemma {:induction false} RunEnds(tag: byte, a: seq<Candidate>, b: seq<Candidate>)
    requires forall c | c in a :: c.tag == tag
    requires forall c | c in b :: c.tag != tag
    ensures Run(tag, a + b) == a
  {
    if a == [] {
      assert a + b == b;
    } else {
      assert (a + b)[1..] == a[1..] + b;
      RunEnds(tag, a[1..], b);
    }
  }

  /** Where the candidates of one tag end is determined by the tags. */
  lemma SplitIsUnique(tag: byte, a1: seq<Candidate>, b1: seq<Candidate>, a2: seq<Candidate>, b2: seq<Candidate>)
    requires a1 + b1 == a2 + b2
    requires forall c | c in a1 + a2 :: c.tag == tag
    requires forall c | c in b1 + b2 :: c.tag != tag
    ensures a1 == a2 && b1 == b2
  {
    assert forall c | c in a1 :: c in a1 + a2;
    assert forall c | c in b1 :: c in b1 + b2;
    RunEnds(tag, a1, b1);
    RunEnds(tag, a2, b2);
    assert b1 == (a1 + b1)[|a1|..] && b2 == (a2 + b2)[|a2|..];
  }

  lemma ObjectsOfCandidates(a: seq<GcObject>, b: seq<GcObject>)
    requires ObjectCandidates(a) == ObjectCandidates(b)
    ensures a == b
  {
    var cs := ObjectCandidates(a);
    assert |a| == |cs| == |b|;
    forall i | 0 <= i < |a|
      ensures a[i] == b[i]
    {
      assert cs[i] == Candidate(TAG_OBJECT, Some(a[i].id), a[i].path, a[i].size);
      assert cs[i] == Candidate(TAG_OBJECT, Some(b[i].id), b[i].path, b[i].size);
    }
  }

  lemma FilesOfCandidates(tag: byte, a: seq<GcFile>, b: seq<GcFile>)
    requires tag != TAG_OBJECT && FileCandidates(tag, a) == FileCandidates(tag, b)
    ensures a == b
  {
    var cs := FileCandidates(tag, a);
    assert |a| == |cs| == |b|;
    forall i | 0 <= i < |a|
      ensures a[i] == b[i]
    {
      assert cs[i] == Candidate(tag, None, a[i].path, a[i].size);
      assert cs[i] == Candidate(tag, None, b[i].path, b[i].size);
    }
  }

  lemma NamesOfCandidates(a: seq<RepositoryFile>, b: seq<RepositoryFile>)
    requires RepositoryCandidates(a) == RepositoryCandidates(b)
    ensures a == b
  {
    var cs := RepositoryCandidates(a);
    assert |a| == |cs| == |b|;
    forall i | 0 <= i < |a|
      ensures a[i] == b[i]
    {
      assert cs[i] == Candidate(TAG_REPOSITORY, None, UnderTmp(a[i].name), a[i].size);
      assert cs[i] == Candidate(TAG_REPOSITORY, None, UnderTmp(b[i].name), b[i].size);
      NamesUnderTmp(a[i].name, b[i].name);
    }
  }

  lemma NamesUnderTmp(a: Path, b: Path)
    requires UnderTmp(a) == UnderTmp(b)
    ensures a == b
  {
    var prefix := Ascii("tmp/");
    match a
    case Utf8(text) => SamePrefix(prefix, text, b.text);
    case NotUtf8(raw) => SamePrefix(prefix, raw, b.raw);
  }

  /** Equal GC transcripts come from the same project, inventory head, candidates and fingerprints. */
  lemma GcTranscriptDetermines(p1: Bytes, h1: Bytes, plan1: StorageGcPlan, f1: Fingerprints,
                               p2: Bytes, h2: Bytes, plan2: StorageGcPlan, f2: Fingerprints)
    requires CanHash(p1, h1, GcCandidates(plan1), f1) && CanHash(p2, h2, GcCandidates(plan2), f2)
    requires Hashed(GC_DOMAIN, p1, h1, GcCandidates(plan1), f1) == Hashed(GC_DOMAIN, p2, h2, GcCandidates(plan2), f2)
    ensures p1 == p2 && h1 == h2 && plan1 == plan2
    ensures forall c | c in GcCandidates(plan1) :: c.path in f1 && c.path in f2 && f1[c.path] == f2[c.path]
  {
    hide Hashed, ObjectCandidates, FileCandidates;
    HashedDetermines(GC_DOMAIN, p1, h1, GcCandidates(plan1), f1, p2, h2, GcCandidates(plan2), f2);
    var chunks1, chunks2 := FileCandidates(TAG_CHUNK, plan1.chunks), FileCandidates(TAG_CHUNK, plan2.chunks);
    var nodes1, nodes2 :=
      FileCandidates(TAG_NODE, plan1.inventoryNodes), FileCandidates(TAG_NODE, plan2.inventoryNodes);
    SplitIsUnique(TAG_OBJECT, ObjectCandidates(plan1.objects), chunks1 + nodes1, ObjectCandidates(plan2.objects),
      chunks2 + nodes2);
    SplitIsUnique(TAG_CHUNK, chunks1, nodes1, chunks2, nodes2);
    ObjectsOfCandidates(plan1.objects, plan2.objects);
    FilesOfCandidates(TAG_CHUNK, plan1.chunks, plan2.chunks);
    FilesOfCandidates(TAG_NODE, plan1.inventoryNodes, plan2.inventoryNodes);
  }

  /** The same for temporary-file cleanup. */
  lemma TempTranscriptDetermines(p1: Bytes, h1: Bytes, plan1: TempCleanupPlan, f1: Fingerprints,
                                 p2: Bytes, h2: Bytes, plan2: TempCleanupPlan, f2: Fingerprints)
    requires CanHash(p1, h1, TempCandidates(plan1), f1) && CanHash(p2, h2, TempCandidates(plan2), f2)
    requires Hashed(TEMP_DOMAIN, p1, h1, TempCandidates(plan1), f1)
      == Hashed(TEMP_DOMAIN, p2, h2, TempCandidates(plan2), f2)
    ensures p1 == p2 && h1 == h2 && plan1 == plan2
    ensures forall c | c in TempCandidates(plan1) :: c.path in f1 && c.path in f2 && f1[c.path] == f2[c.path]
  {
    hide Hashed, RepositoryCandidates, FileCandidates;
    HashedDetermines(TEMP_DOMAIN, p1, h1, TempCandidates(plan1), f1, p2, h2, TempCandidates(plan2), f2);
    SplitIsUnique(TAG_PROJECT, FileCandidates(TAG_PROJECT, plan1.files), RepositoryCandidates(plan1.repositoryFiles),
                  FileCandidates(TAG_PROJECT, plan2.files), RepositoryCandidates(plan2.repositoryFiles));
    FilesOfCandidates(TAG_PROJECT, plan1.files, plan2.files);
    NamesOfCandidates(plan1.repositoryFiles, plan2.repositoryFiles);
  }

  /** A GC plan and a cleanup plan never share a transcript. */
  lemma DomainsNeverCollide(p1: Bytes, h1: Bytes, cs1: seq<Candidate>, f1: Fingerprints,
                            p2: Bytes, h2: Bytes, cs2: seq<Candidate>, f2: Fingerprints)
    requires CanHash(p1, h1, cs1, f1) && CanHash(p2, h2, cs2, f2)
    ensures Hashed(GC_DOMAIN, p1, h1, cs1, f1) != Hashed(TEMP_DOMAIN, p2, h2, cs2, f2)
  {
    var a, b := Hashed(GC_DOMAIN, p1, h1, cs1, f1), Hashed(TEMP_DOMAIN, p2, h2, cs2, f2);
    assert a[8] == GC_DOMAIN[8] == 's' as int;
    assert b[8] == TEMP_DOMAIN[8] == 't' as int;
  }
}
