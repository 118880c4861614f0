/** The two cache stores, and the on-disk one seen as the in-memory one. */
module CacheStore {
  import opened Wrappers

  type Artifact(==, !new)

  datatype CachedResult = CachedResult(
    artifact: Artifact, outputVersion: string, computedAt: real, ttl: Option<real>, tags: seq<string>)

  datatype Record = Record(
    outputVersion: string, computedAt: real, ttl: Option<real>, tags: seq<string>, blob: string)

  /** A signed file of the content store. */
  datatype Blob = Blob(mac: string, bytes: string, mtime: real)

  /** Pickling, SHA-256 and the keyed signature. */
  datatype Codec = Codec(
    dumps: Artifact -> Option<string>,   // None: not picklable
    loads: string -> Option<Artifact>,
    hash: string -> string,
    sign: string -> string)

  ghost predicate Faithful(c: Codec) {
    && (forall a | c.dumps(a).Some? :: c.loads(c.dumps(a).value) == Some(a))
    && (forall x, y | c.hash(x) == c.hash(y) :: x == y)
  }

  datatype CacheError = CorruptEntry | SignatureMismatch | NotPicklable

  /** The keys whose entry carries a tag. */
  function Tagged(entries: map<string, CachedResult>, tag: string): set<string> {
    set k | k in entries && tag in entries[k].tags
  }

  /** Exactly the entries without the tag are left, as they were. */
  ghost predicate WithoutTag(before: map<string, CachedResult>, after: map<string, CachedResult>, tag: string) {
    && (forall k :: k in after <==> k in before && tag !in before[k].tags)
    && forall k | k in after :: after[k] == before[k]
  }

  /** Exactly the entries no older than the limit are left, as they were. */
  ghost predicate WithinAge(before: map<string, CachedResult>, after: map<string, CachedResult>,
                            clock: real, maxAge: real) {
    && (forall k :: k in after <==> k in before && clock - before[k].computedAt <= maxAge)
    && forall k | k in after :: after[k] == before[k]
  }

  lemma TaggedGo(entries: map<string, CachedResult>, tag: string)
    ensures WithoutTag(entries, entries - Tagged(entries, tag), tag)
    ensures |Tagged(entries, tag)| == |entries| - |entries - Tagged(entries, tag)|
  {
    SizeSplits(entries, entries - Tagged(entries, tag), Tagged(entries, tag));
  }

  lemma WithoutTagIsOne(before: map<string, CachedResult>, a: map<string, CachedResult>, b: map<string, CachedResult>,
                        tag: string)
    requires WithoutTag(before, a, tag) && WithoutTag(before, b, tag)
    ensures a == b
  {
  }

  /** The entries no older than a limit. */
  function Younger(entries: map<string, CachedResult>, clock: real, maxAge: real): map<string, CachedResult> {
    map k | k in entries && clock - entries[k].computedAt <= maxAge :: entries[k]
  }

  class MemoryCacheStore {
    var entries: map<string, CachedResult>

    constructor ()
      ensures entries == map[]
    {
      entries := map[];
    }

    method Get(version: string) returns (r: Option<CachedResult>)
      ensures r == if version in entries then Some(entries[version]) else None
    {
      r := if version in entries then Some(entries[version]) else None;
    }

    method Put(version: string, result: CachedResult)
      modifies this
      ensures entries == old(entries)[version := result]
    {
      entries := entries[version := result];
    }

    method InvalidateTag(tag: string) returns (removed: nat)
      modifies this
      ensures WithoutTag(old(entries), entries, tag)
      ensures removed == |old(entries)| - |entries|
    {
      var gone := Tagged(entries, tag);
      TaggedGo(entries, tag);
      assert gone * entries.Keys == gone;
      entries, removed := Unlink(entries, gone);
    }

    method Clear()
      modifies this
      ensures entries == map[]
    {
      entries := map[];
    }
  }

  // ---- The on-disk structures as one map -------------------------------------------------------

  function ToRecord(r: CachedResult, blob: string): Record {
    Record(r.outputVersion, r.computedAt, r.ttl, r.tags, blob)
  }

  function ToResult(r: Record, a: Artifact): CachedResult {
    CachedResult(a, r.outputVersion, r.computedAt, r.ttl, r.tags)
  }

  /** A blob filed under its own hash, signed, and holding an artifact. */
  predicate Intact(c: Codec, name: string, b: Blob) {
    c.hash(b.bytes) == name && b.mac == c.sign(b.bytes) && c.loads(b.bytes).Some?
  }

  ghost predicate Agree(c: Codec, ac: map<string, Record>, cas: map<string, Blob>) {
    && (forall k | k in ac :: ac[k].blob in cas)
    && (forall d | d in cas :: Intact(c, d, cas[d]))
  }

  /** A blob not yet there is written, signed and dated; one already there stays as it is. */
  function Filed(c: Codec, cas: map<string, Blob>, bytes: string, now: real): (after: map<string, Blob>)
    ensures c.hash(bytes) in cas ==> after == cas
    ensures c.hash(bytes) !in cas ==> after == cas[c.hash(bytes) := Blob(c.sign(bytes), bytes, now)]
  {
    if c.hash(bytes) in cas then cas else cas[c.hash(bytes) := Blob(c.sign(bytes), bytes, now)]
  }

  /** What the records and blobs say together. */
  ghost function Entries(c: Codec, ac: map<string, Record>, cas: map<string, Blob>): map<string, CachedResult>
    requires Agree(c, ac, cas)
  {
    map k | k in ac :: ToResult(ac[k], c.loads(cas[ac[k].blob].bytes).value)
  }

  /** The blobs some record points at. */
  function Referenced(ac: map<string, Record>): set<string> {
    set k | k in ac :: ac[k].blob
  }

  predicate Swept(cas: map<string, Blob>, referenced: set<string>, now: real, grace: real, d: string) {
    d in cas && d !in referenced && now - cas[d].mtime >= grace
  }

  function Sweepable(cas: map<string, Blob>, referenced: set<string>, now: real, grace: real): set<string> {
    set d | d in cas && Swept(cas, referenced, now, grace, d)
  }

  /** Exactly the blobs that no record names and that are at least as old as the grace are gone. */
  ghost predicate IsSwept(ac: map<string, Record>, before: map<string, Blob>, after: map<string, Blob>,
                          grace: real, now: real) {
    && (forall d :: d in after <==>
          d in before && ((exists k :: k in ac && ac[k].blob == d) || now - before[d].mtime < grace))
    && forall d | d in after :: after[d] == before[d]
  }

  lemma SweptIs(ac: map<string, Record>, cas: map<string, Blob>, grace: real, now: real)
    ensures var gone := Sweepable(cas, Referenced(ac), now, grace);
            IsSwept(ac, cas, cas - gone, grace, now) && |gone| == |cas| - |cas - gone|
  {
    var gone := Sweepable(cas, Referenced(ac), now, grace);
    SizeSplits(cas, cas - gone, gone);
  }

  lemma SweepKeepsEntries(c: Codec, ac: map<string, Record>, cas: map<string, Blob>, gone: set<string>)
    requires Agree(c, ac, cas) && gone * Referenced(ac) == {}
    ensures Agree(c, ac, cas - gone)
    ensures Entries(c, ac, cas - gone) == Entries(c, ac, cas)
  {
    forall k | k in ac ensures ac[k].blob in cas - gone {
      assert ac[k].blob in Referenced(ac);
      assert ac[k].blob !in gone * Referenced(ac);
    }
  }

  lemma SweepIsSafe(c: Codec, ac: map<string, Record>, cas: map<string, Blob>, grace: real, now: real)
    requires Agree(c, ac, cas)
    ensures var gone := Sweepable(cas, Referenced(ac), now, grace);
            && Agree(c, ac, cas - gone) && Entries(c, ac, cas - gone) == Entries(c, ac, cas)
            && IsSwept(ac, cas, cas - gone, grace, now)
            && |gone * cas.Keys| == |cas| - |cas - gone|
  {
    var gone := Sweepable(cas, Referenced(ac), now, grace);
    SweepKeepsEntries(c, ac, cas, gone);
    SweptIs(ac, cas, grace, now);
    assert gone * cas.Keys == gone;
  }

  lemma DropKeepsAgreement(c: Codec, ac: map<string, Record>, cas: map<string, Blob>, gone: set<string>)
    requires Agree(c, ac, cas)
    ensures Agree(c, ac - gone, cas)
    ensures Entries(c, ac - gone, cas) == Entries(c, ac, cas) - gone
  {
  }

  /** Storing a result: a blob already filed under the digest is the very blob. */
  lemma PutAgrees(c: Codec, ac: map<string, Record>, cas: map<string, Blob>, version: string,
                  result: CachedResult, now: real)
    requires Faithful(c) && Agree(c, ac, cas) && c.dumps(result.artifact).Some?
    ensures var bytes := c.dumps(result.artifact).value;
            var d := c.hash(bytes);
            var cas' := if d in cas then cas else cas[d := Blob(c.sign(bytes), bytes, now)];
            var ac' := ac[version := ToRecord(result, d)];
            Agree(c, ac', cas') && Entries(c, ac', cas') == Entries(c, ac, cas)[version := result]
  {
    var bytes := c.dumps(result.artifact).value;
    var d := c.hash(bytes);
    if d in cas {
      assert Intact(c, d, cas[d]);
      assert cas[d].bytes == bytes;
    }
  }

  lemma YoungerDrops(entries: map<string, CachedResult>, clock: real, maxAge: real, gone: set<string>)
    requires gone == set k | k in entries && clock - entries[k].computedAt > maxAge
    ensures Younger(entries, clock, maxAge) == entries - gone
    ensures |gone| == |entries| - |Younger(entries, clock, maxAge)|
  {
  }

  /** A walk halfway: the files still there, and the ones deleted so far. */
  function Kept<V>(files: map<string, V>, gone: set<string>, todo: set<string>): map<string, V> {
    map k | k in files && (k !in gone || k in todo) :: files[k]
  }

  function Deleted<V>(files: map<string, V>, gone: set<string>, todo: set<string>): set<string> {
    set k | k in files && k in gone && k !in todo
  }

  lemma WalkBounds<V>(files: map<string, V>, gone: set<string>)
    ensures Kept(files, gone, files.Keys) == files && Deleted(files, gone, files.Keys) == {}
    ensures Kept(files, gone, {}) == files - gone && Deleted(files, gone, {}) == gone * files.Keys
  {
  }

  lemma WalkStep<V>(files: map<string, V>, gone: set<string>, todo: set<string>, k: string)
    requires k in todo && k in files
    ensures Kept(files, gone, todo - {k})
            == if k in gone then Kept(files, gone, todo) - {k} else Kept(files, gone, todo)
    ensures |Deleted(files, gone, todo - {k})| == |Deleted(files, gone, todo)| + if k in gone then 1 else 0
  {
    assert Deleted(files, gone, todo - {k}) == Deleted(files, gone, todo) + if k in gone then {k} else {};
  }

  /** Walks a directory and deletes the files that are to go, counting them. */
  method Unlink<V>(files: map<string, V>, gone: set<string>) returns (rest: map<string, V>, removed: nat)
    ensures rest == files - gone && removed == |gone * files.Keys|
  {
    WalkBounds(files, gone);
    rest, removed := files, 0;
    var todo := files.Keys;
    while todo != {}
      invariant forall k | k in todo :: k in files
      invariant rest == Kept(files, gone, todo) && removed == |Deleted(files, gone, todo)|
      decreases todo
    {
      var k :| k in todo;
      WalkStep(files, gone, todo, k);
      if k in gone {
        rest, removed := rest - {k}, removed + 1;
      }
      todo := todo - {k};
    }
  }

  lemma SizeSplits<V>(m: map<string, V>, rest: map<string, V>, gone: set<string>)
    requires rest == m - gone && gone <= m.Keys
    ensures |gone| == |m| - |rest|
  {
  }

  class LocalCacheStore {
    const codec: Codec
    var ac: map<string, Record>
    var cas: map<string, Blob>

    constructor (codec: Codec)
      ensures this.codec == codec && ac == map[] && cas == map[]
    {
      this.codec := codec;
      ac, cas := map[], map[];
    }

    ghost predicate Valid()
      reads this
    {
      Faithful(codec) && Agree(codec, ac, cas)
    }

    ghost function Contents(): map<string, CachedResult>
      requires Valid()
      reads this
    {
      Entries(codec, ac, cas)
    }

    /** On a sound store this is the map's answer; a record without its blob, or a blob
        whose signature is wrong, is refused and never unpickled. */
    method Get(version: string) returns (r: Result<Option<CachedResult>, CacheError>)
      ensures Valid() ==> r == Success(if version in Contents() then Some(Contents()[version]) else None)
      ensures version !in ac ==> r == Success(None)
      ensures version in ac && ac[version].blob !in cas ==> r == Failure(CorruptEntry)
      ensures version in ac && ac[version].blob in cas
              && cas[ac[version].blob].mac != codec.sign(cas[ac[version].blob].bytes)
              ==> r == Failure(SignatureMismatch)
      ensures version in ac && ac[version].blob in cas
              && cas[ac[version].blob].mac == codec.sign(cas[ac[version].blob].bytes)
              ==> var record, read := ac[version], codec.loads(cas[ac[version].blob].bytes);
                  r == if read.None? then Failure(CorruptEntry)
                       else Success(Some(CachedResult(read.value, record.outputVersion, record.computedAt, record.ttl,
                                                      record.tags)))
    {
      if version !in ac {
        return Success(None);
      }
      var record := ac[version];
      if record.blob !in cas {
        return Failure(CorruptEntry);
      }
      var blob := cas[record.blob];
      if blob.mac != codec.sign(blob.bytes) {
        return Failure(SignatureMismatch);
      }
      match codec.loads(blob.bytes)
      case None => return Failure(CorruptEntry);
      case Some(artifact) => return Success(Some(ToResult(record, artifact)));
    }

    method Put(version: string, result: CachedResult, now: real) returns (r: Result<(), CacheError>)
      requires Valid()
      modifies this
      ensures Valid()
      ensures codec.dumps(result.artifact).None? ==> r == Failure(NotPicklable) && ac == old(ac) && cas == old(cas)
      ensures codec.dumps(result.artifact).Some?
              ==> r == Success(()) && Contents() == old(Contents())[version := result]
                  && cas == Filed(codec, old(cas), codec.dumps(result.artifact).value, now)
    {
      match codec.dumps(result.artifact)
      case None => return Failure(NotPicklable);
      case Some(bytes) =>
        PutAgrees(codec, ac, cas, version, result, now);
        var digest := codec.hash(bytes);
        if digest !in cas {
          cas := cas[digest := Blob(codec.sign(bytes), bytes, now)];
        }
        ac := ac[version := ToRecord(result, digest)];
        return Success(());
    }

    /** Remove the given records, one file at a time. */
    method DropRecords(gone: set<string>) returns (removed: nat)
      requires Valid()
      modifies this`ac
      ensures Valid() && ac == old(ac) - gone
      ensures Contents() == old(Contents()) - gone
      ensures removed == |gone * old(ac).Keys|
    {
      DropKeepsAgreement(codec, ac, cas, gone);
      ac, removed := Unlink(ac, gone);
    }

    /** `_sweep_cas`: delete the unreferenced blobs that have outlived the grace. */
    method Sweep(grace: real, now: real) returns (removed: nat)
      requires Valid()
      modifies this`cas
      ensures Valid() && Contents() == old(Contents())
      ensures IsSwept(ac, old(cas), cas, grace, now) && removed == |old(cas)| - |cas|
    {
      var referenced := Referenced(ac);
      SweepIsSafe(codec, ac, cas, grace, now);
      cas, removed := Unlink(cas, Sweepable(cas, referenced, now, grace));
    }

    /** Every record that carries the tag. */
    method DropTagged(tag: string) returns (removed: nat)
      requires Valid()
      modifies this`ac
      ensures Valid() && Contents() == old(Contents()) - Tagged(old(Contents()), tag)
      ensures removed == |Tagged(old(Contents()), tag)|
    {
      var gone := set k | k in ac && tag in ac[k].tags;
      assert gone == Tagged(Contents(), tag);
      assert gone * ac.Keys == gone;
      removed := DropRecords(gone);
    }

    method InvalidateTag(tag: string, grace: real, now: real) returns (removed: nat)
      requires Valid()
      modifies this
      ensures Valid()
      ensures WithoutTag(old(Contents()), Contents(), tag)
      ensures removed == |old(Contents())| - |Contents()|
      ensures IsSwept(ac, old(cas), cas, grace, now)
    {
      TaggedGo(Contents(), tag);
      removed := DropTagged(tag);
      var _ := Sweep(grace, now);
    }

    /** Invisible to every reader. */
    method Gc(grace: real, now: real) returns (removed: nat)
      requires Valid()
      modifies this`cas
      ensures Valid() && Contents() == old(Contents()) && ac == old(ac)
      ensures IsSwept(ac, old(cas), cas, grace, now) && removed == |old(cas)| - |cas|
    {
      removed := Sweep(grace, now);
    }

    /** Keeps exactly the entries no older than the limit. */
    method EvictOlderThan(maxAge: real, grace: real, clock: real, now: real) returns (removed: nat)
      requires Valid()
      modifies this
      ensures Valid()
      ensures WithinAge(old(Contents()), Contents(), clock, maxAge)
      ensures removed == |old(Contents())| - |Contents()|
      ensures IsSwept(ac, old(cas), cas, grace, now)
    {
      ghost var was := Contents();
      var gone := set k | k in ac && clock - ac[k].computedAt > maxAge;
      YoungerDrops(was, clock, maxAge, gone);
      assert gone * ac.Keys == gone;
      removed := DropRecords(gone);
      var _ := Sweep(grace, now);
    }

    method Clear()
      requires Valid()
      modifies this
      ensures Valid() && Contents() == map[] && ac == map[] && cas == map[]
    {
      ac, cas := map[], map[];
    }
  }

  // ---- One history, both stores -----------------------------------------------------------------

  datatype Op =
    | OpGet(version: string)
    | OpPut(version: string, result: CachedResult)
    | OpInvalidate(tag: string)
    | OpGc
    | OpClear

  datatype Answer = Got(result: Option<CachedResult>) | Removed(count: nat) | Nothing | Refused(error: CacheError)

  /** An answer is refused only for a result that cannot be pickled. */
  predicate Matches(c: Codec, op: Op, inMemory: Answer, onDisk: Answer) {
    if op.OpPut? && c.dumps(op.result.artifact).None? then onDisk == Refused(NotPicklable)
    else onDisk == inMemory
  }

  predicate Storable(c: Codec, ops: seq<Op>) {
    forall i | 0 <= i < |ops| :: ops[i].OpPut? ==> c.dumps(ops[i].result.artifact).Some?
  }

  ghost predicate InStep(mem: MemoryCacheStore, disk: LocalCacheStore)
    reads mem, disk
  {
    disk.Valid() && mem.entries == disk.Contents()
  }

  /** The same operations on both stores give the same answers and leave the same entries,
      whenever the collector runs and whatever its grace, as long as every result stored can
      be pickled. */
  method RunBoth(mem: MemoryCacheStore, disk: LocalCacheStore, ops: seq<Op>, grace: real, clock: seq<real>)
    returns (inMemory: seq<Answer>, onDisk: seq<Answer>)
    requires InStep(mem, disk)
    requires Storable(disk.codec, ops) && |clock| == |ops|
    modifies mem, disk
    ensures inMemory == onDisk && |onDisk| == |ops|
    ensures InStep(mem, disk)
  {
    inMemory, onDisk := [], [];
    for i := 0 to |ops|
      invariant InStep(mem, disk)
      invariant inMemory == onDisk && |onDisk| == i
    {
      var a, b := RunOne(mem, disk, ops[i], grace, clock[i]);
      inMemory, onDisk := inMemory + [a], onDisk + [b];
    }
  }

  method RunOne(mem: MemoryCacheStore, disk: LocalCacheStore, op: Op, grace: real, now: real)
    returns (inMemory: Answer, onDisk: Answer)
    requires InStep(mem, disk)
    modifies mem, disk
    ensures Matches(disk.codec, op, inMemory, onDisk) && disk.Valid()
    ensures InStep(mem, disk) || (op.OpPut? && disk.codec.dumps(op.result.artifact).None?)
  {
    inMemory, onDisk := Nothing, Nothing;
    match op
    case OpGet(version) =>
      var a := mem.Get(version);
      var b := disk.Get(version);
      inMemory := Got(a);
      match b {
        case Success(v) => onDisk := Got(v);
        case Failure(e) => onDisk := Refused(e);
      }
    case OpPut(version, result) =>
      mem.Put(version, result);
      var b := disk.Put(version, result, now);
      if b.Failure? {
        onDisk := Refused(b.error);
      }
    case OpInvalidate(tag) =>
      inMemory, onDisk := InvalidateBoth(mem, disk, tag, grace, now);
    case OpGc =>
      var _ := disk.Gc(grace, now);
    case OpClear =>
      mem.Clear();
      disk.Clear();
  }

  method InvalidateBoth(mem: MemoryCacheStore, disk: LocalCacheStore, tag: string, grace: real, now: real)
    returns (inMemory: Answer, onDisk: Answer)
    requires InStep(mem, disk)
    modifies mem, disk
    ensures inMemory == onDisk && InStep(mem, disk)
  {
    ghost var was := mem.entries;
    var a := mem.InvalidateTag(tag);
    ghost var first := mem.entries;
    var b := disk.InvalidateTag(tag, grace, now);
    ghost var second := disk.Contents();
    WithoutTagIsOne(was, first, second, tag);
    inMemory, onDisk := Removed(a), Removed(b);
  }
}
