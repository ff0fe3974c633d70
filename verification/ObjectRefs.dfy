/**
 The `object_refs` table of the snapshot index, the checked integer arithmetic its writers
 use, and what it means for the table to count a list of manifest entries.
 */
module ObjectRefs {
  import opened Outcomes
  import opened Manifests

  const I64_MAX: nat := 0x7FFF_FFFF_FFFF_FFFF

  datatype IndexError =
    | Unreadable      // a chunk is missing, misfiled or of the wrong kind
    | SizeConflict    // one object, two expected sizes
    | Overflow        // a checked operation left the supported range
    | Underflow       // an incoming edge count went below zero
    | Cycle           // chunks remain, none of them ready
    | Unavailable     // the index contradicts the snapshot it is told about

  function CheckedAdd(a: nat, b: nat): Result<nat, IndexError> {
    if a + b <= U64_MAX then Ok(a + b) else Err(Overflow)
  }

  function CheckedMul(a: nat, b: nat): Result<nat, IndexError> {
    if a * b <= U64_MAX then Ok(a * b) else Err(Overflow)
  }

  /** SQLite stores signed 64-bit integers. */
  function ToSqlite(a: nat): Result<nat, IndexError> {
    if a <= I64_MAX then Ok(a) else Err(Overflow)
  }

  /** A stored counter plus an amount, stored again. */
  function AddStored(have: nat, amount: nat): Result<nat, IndexError> {
    var sum :- CheckedAdd(have, amount);
    ToSqlite(sum)
  }

  /** A stored counter plus a product, stored again. */
  function AddProductStored(have: nat, a: nat, b: nat): Result<nat, IndexError> {
    var product :- CheckedMul(a, b);
    AddStored(have, product)
  }

  datatype ObjectRow = ObjectRow(size: nat, count: nat)

  type Refs = map<Digest, ObjectRow>

  function CountIn(refs: Refs, o: Digest): nat {
    if o in refs then refs[o].count else 0
  }

  /** Adds `count` references to one object, or says why it cannot. */
  function IncrementObjectRef(refs: Refs, o: Digest, size: nat, count: nat): Result<Refs, IndexError> {
    var size :- ToSqlite(size);
    if o !in refs then
      var count :- ToSqlite(count);
      Ok(refs[o := ObjectRow(size, count)])
    else if refs[o].size != size then
      Err(SizeConflict)
    else
      var next :- AddStored(refs[o].count, count);
      Ok(refs[o := ObjectRow(size, next)])
  }

  ghost predicate SizesAgree(entries: seq<Entry>) {
    forall e, f | e in entries && f in entries && e.objectId == f.objectId :: e.size == f.size
  }

  /** `refs` has one row per object of `entries`, with its size and number of occurrences. */
  ghost predicate Tallies(refs: Refs, entries: seq<Entry>) {
    && (forall o :: o in refs <==> Occurrences(entries, o) > 0)
    && (forall o | o in refs :: refs[o].count == Occurrences(entries, o))
    && (forall e | e in entries :: e.objectId in refs && refs[e.objectId].size == e.size)
  }

  /** Only one table counts a given list of entries, and its sizes never conflict. */
  lemma TallyIsUnique(a: Refs, b: Refs, entries: seq<Entry>)
    requires Tallies(a, entries) && Tallies(b, entries)
    ensures a == b
    ensures SizesAgree(entries)
    ensures forall o | o in a :: a[o].count > 0
  {
    forall o | o in a
      ensures o in b && a[o] == b[o]
    {
      OccurrencesPositive(entries, o);
      var e :| e in entries && e.objectId == o;
      assert a[e.objectId].size == e.size == b[e.objectId].size;
    }
    forall o | o in b
      ensures o in a
    {
      assert Occurrences(entries, o) > 0;
    }
  }
}
