/**
 The two storage backends (app/storage/__init__.py, app/storage/s3.py): writing an object from a
 stream of chunks, and hashing a stored object again.
 */
module Storage {
  import opened Wrappers
  import opened Content

  const CHUNK: nat := 1024 * 1024

  /** What one read of a stream returns before its end. */
  type Chunk = c: Bytes | 0 < |c| <= CHUNK witness [0]

  datatype PutError =
    | TooBig
    | Empty
    | AlreadyExists
    | Unavailable
    | OsError            // an operating-system error: not a StorageError

  datatype Stored = Stored(size: nat, sha256: Digest)

  function Concat(chunks: seq<Chunk>): Bytes {
    if chunks == [] then [] else Concat(chunks[..|chunks| - 1]) + chunks[|chunks| - 1]
  }

  lemma ConcatNext(chunks: seq<Chunk>, k: nat)
    requires k < |chunks|
    ensures Concat(chunks[..k + 1]) == Concat(chunks[..k]) + chunks[k]
  {
    assert chunks[..k + 1][..k] == chunks[..k];
  }

  lemma {:induction false} ConcatGrows(chunks: seq<Chunk>, k: nat)
    requires k <= |chunks|
    ensures Concat(chunks[..k]) <= Concat(chunks)
  {
    if k == |chunks| {
      assert chunks[..k] == chunks;
    } else {
      ConcatGrows(chunks[..|chunks| - 1], k);
      assert chunks[..|chunks| - 1][..k] == chunks[..k];
    }
  }

  /** Which call to the operating system fails, if any; the k-th read is counted from 0. */
  datatype LocalFaults = LocalFaults(
    makedirs: bool, open: bool, readAt: Option<nat>, writeAt: Option<nat>, sync: bool, remove: bool, chmod: bool)

  const HEALTHY := LocalFaults(false, false, None, None, false, false, false)

  /** No read up to and including the one that finds the end, and no write, fails. */
  predicate StreamFails(f: LocalFaults, n: nat) {
    (f.readAt.Some? && f.readAt.value <= n) || (f.writeAt.Some? && f.writeAt.value < n)
  }

  // ---------------------------------------------------------------------------
  // The promise both backends make
  // ---------------------------------------------------------------------------

  /**
   Write-once: either the object did not exist, now holds exactly the bytes of the stream, and their
   length (1 to maxBytes) and SHA-256 are returned; or the call failed and nothing changed.
   */
  ghost predicate PutOnce(
    before: Objects, after: Objects, sha: Sha, id: ObjectId, data: Bytes, maxBytes: nat, r: Result<Stored, PutError>)
  {
    match r
    case Ok(stored) =>
      && id !in before && after == before[id := data]
      && 0 < |data| <= maxBytes && stored == Stored(|data|, sha(data))
    case Err(_) => after == before
  }

  // ---------------------------------------------------------------------------
  // Local disk
  // ---------------------------------------------------------------------------

  /**
   What LocalStorage.put_as does, fault by fault. The file is opened inside the `try` whose handler
   removes the path, so when the object already exists the handler removes that object.
   */
  ghost predicate LocalPut(
    before: Objects, after: Objects, sha: Sha, id: ObjectId, chunks: seq<Chunk>, maxBytes: nat, f: LocalFaults,
    r: Result<Stored, PutError>)
  {
    var data := Concat(chunks);
    var written := !f.open && id !in before && !StreamFails(f, |chunks|) && !f.sync && 0 < |data| <= maxBytes;
    if f.makedirs then
      r == Err(OsError) && after == before
    else if written then
      && after == before[id := data]
      && r == if f.chmod then Err(OsError) else Ok(Stored(|data|, sha(data)))
    else
      && r.Err?
      && (if f.remove && (id in before || !f.open)
          then r == Err(OsError) && id in after && after - {id} == before - {id} && (id in before ==> after == before)
          else after == before - {id})
      && (r == Err(TooBig) ==> |data| > maxBytes)
      && (r == Err(Empty) ==> data == [])
      && (r == Err(TooBig) || r == Err(Empty) || r == Err(OsError))
      && (f.open || id in before ==> r == Err(OsError))
      && (id !in before && f == HEALTHY ==> r == Err(if data == [] then Empty else TooBig))
  }

  class LocalStorage {
    const sha: Sha
    var objects: Objects

    constructor (sha: Sha)
      ensures this.sha == sha && objects == map[]
    {
      this.sha := sha;
      objects := map[];
    }

    /** _remove, the clean-up of a failed write: a missing file is fine. */
    method Remove(id: ObjectId, fails: bool, because: PutError) returns (raised: PutError)
      modifies this
      ensures fails && id in old(objects) ==> raised == OsError && objects == old(objects)
      ensures !(fails && id in old(objects)) ==> raised == because && objects == old(objects) - {id}
    {
      if id !in objects {
        assert objects - {id} == objects;
        return because;
      }
      if fails {
        return OsError;
      }
      objects := objects - {id};
      return because;
    }

    method PutAs(id: ObjectId, chunks: seq<Chunk>, maxBytes: nat, f: LocalFaults) returns (r: Result<Stored, PutError>)
      modifies this
      ensures LocalPut(old(objects), objects, sha, id, chunks, maxBytes, f, r)
    {
      ghost var before := objects;
      if f.makedirs {
        return Err(OsError);
      }
      if f.open || id in objects {
        var e := Remove(id, f.remove, OsError);
        return Err(e);
      }
      objects := objects[id := []];
      var k, size, digested: Bytes := 0, 0, [];
      while k < |chunks|
        invariant k <= |chunks|
        invariant digested == Concat(chunks[..k]) && size == |digested| <= maxBytes
        invariant objects == before[id := digested]
        invariant f.readAt.Some? ==> k <= f.readAt.value
        invariant f.writeAt.Some? ==> k <= f.writeAt.value
      {
        if f.readAt == Some(k) {
          var e := Remove(id, f.remove, OsError);
          assert before[id := digested] - {id} == before - {id};
          return Err(e);
        }
        ConcatNext(chunks, k);
        ConcatGrows(chunks, k + 1);
        size := size + |chunks[k]|;
        if size > maxBytes {
          var e := Remove(id, f.remove, TooBig);
          assert before[id := digested] - {id} == before - {id};
          return Err(e);
        }
        digested := digested + chunks[k];
        if f.writeAt == Some(k) {
          var e := Remove(id, f.remove, OsError);
          assert before[id := digested] - {id} == before - {id};
          return Err(e);
        }
        objects := objects[id := objects[id] + chunks[k]];
        k := k + 1;
      }
      assert chunks[..k] == chunks;
      assert before[id := digested] - {id} == before - {id};
      if f.readAt == Some(k) || f.sync {
        var e := Remove(id, f.remove, OsError);
        return Err(e);
      }
      if size == 0 {
        var e := Remove(id, f.remove, Empty);
        return Err(e);
      }
      if f.chmod {
        return Err(OsError);
      }
      return Ok(Stored(size, sha(digested)));
    }

    /** Hash a stored object again, read in pieces of at most CHUNK bytes. */
    method Sha256(id: ObjectId, readAt: Option<nat>) returns (r: Result<Stored, PutError>)
      ensures r.Ok? ==> id in objects && r.value == Stored(|objects[id]|, sha(objects[id]))
      ensures r == Err(Unavailable) <==> id !in objects
      ensures r == Err(OsError) <==> id in objects && readAt.Some? && readAt.value * CHUNK < |objects[id]|
    {
      if id !in objects {
        return Err(Unavailable);
      }
      var data := objects[id];
      var k, pos, digested: Bytes := 0, 0, [];
      while pos < |data|
        invariant pos <= |data| && digested == data[..pos]
        invariant if k * CHUNK <= |data| then pos == k * CHUNK else pos == |data|
        invariant pos < |data| ==> pos == k * CHUNK
        invariant readAt.Some? && readAt.value < k ==> false
      {
        if readAt == Some(k) {
          return Err(OsError);
        }
        var end := if |data| - pos < CHUNK then |data| else pos + CHUNK;
        digested := digested + data[pos..end];
        pos := end;
        k := k + 1;
      }
      assert data[..pos] == data;
      return Ok(Stored(pos, sha(digested)));
    }
  }

  // ---------------------------------------------------------------------------
  // S3
  // ---------------------------------------------------------------------------

  datatype S3Faults = S3Faults(readAt: Option<nat>, writeAt: Option<nat>, put: bool)

  ghost predicate S3Put(
    before: Objects, after: Objects, sha: Sha, conditional: bool, id: ObjectId, chunks: seq<Chunk>, maxBytes: nat,
    f: S3Faults, r: Result<Stored, PutError>)
  {
    var data := Concat(chunks);
    var spooled := StreamFails(LocalFaults(false, false, f.readAt, f.writeAt, false, false, false), |chunks|);
    if !spooled && 0 < |data| <= maxBytes && !f.put && !(conditional && id in before) then
      after == before[id := data] && r == Ok(Stored(|data|, sha(data)))
    else
      && after == before && r.Err?
      && (!spooled && !f.put && 0 < |data| <= maxBytes ==> r == Err(AlreadyExists))
  }

  class S3Storage {
    const sha: Sha
    const conditional: bool
    var objects: Objects

    constructor (sha: Sha, conditional: bool)
      ensures this.sha == sha && this.conditional == conditional && objects == map[]
    {
      this.sha := sha;
      this.conditional := conditional;
      objects := map[];
    }

    /** The stream goes to a temporary file first; only a complete one within the limit is uploaded. */
    method PutAs(id: ObjectId, chunks: seq<Chunk>, maxBytes: nat, f: S3Faults) returns (r: Result<Stored, PutError>)
      modifies this
      ensures S3Put(old(objects), objects, sha, conditional, id, chunks, maxBytes, f, r)
    {
      var k, size, spool: Bytes := 0, 0, [];
      while k < |chunks|
        invariant k <= |chunks|
        invariant objects == old(objects)
        invariant spool == Concat(chunks[..k]) && size == |spool| <= maxBytes
        invariant f.readAt.Some? ==> k <= f.readAt.value
        invariant f.writeAt.Some? ==> k <= f.writeAt.value
      {
        if f.readAt == Some(k) {
          return Err(OsError);
        }
        ConcatNext(chunks, k);
        ConcatGrows(chunks, k + 1);
        size := size + |chunks[k]|;
        if size > maxBytes {
          return Err(TooBig);
        }
        if f.writeAt == Some(k) {
          return Err(OsError);
        }
        spool := spool + chunks[k];
        k := k + 1;
      }
      assert chunks[..k] == chunks;
      if f.readAt == Some(k) {
        return Err(OsError);
      }
      if size == 0 {
        return Err(Empty);
      }
      if f.put {
        return Err(Unavailable);
      }
      if conditional && id in objects {
        return Err(AlreadyExists);
      }
      objects := objects[id := spool];
      return Ok(Stored(size, sha(spool)));
    }

    /** discard_unrecorded suppresses the client's error: a failed delete is silent. */
    method DiscardUnrecorded(id: ObjectId, fails: bool)
      modifies this
      ensures objects == if fails then old(objects) else old(objects) - {id}
    {
      if !fails {
        objects := objects - {id};
      }
    }
  }

  // ---------------------------------------------------------------------------
  // Both backends against the promise
  // ---------------------------------------------------------------------------

  /** A fresh id, and a disk on which clean-up and chmod work: whatever else fails, write-once holds. */
  lemma LocalPutOnce(
    before: Objects, after: Objects, sha: Sha, id: ObjectId, chunks: seq<Chunk>, maxBytes: nat, f: LocalFaults,
    r: Result<Stored, PutError>)
    requires LocalPut(before, after, sha, id, chunks, maxBytes, f, r)
    requires id !in before && !f.remove && !f.chmod
    ensures PutOnce(before, after, sha, id, Concat(chunks), maxBytes, r)
    ensures r.Err? && f == HEALTHY ==> Concat(chunks) == [] || |Concat(chunks)| > maxBytes
  {
    assert before - {id} == before;
  }

  /** The faults under which LocalStorage.put_as keeps its promise, for an object that exists or not. */
  predicate LocalKeepsPromise(f: LocalFaults, present: bool, n: nat, size: nat, maxBytes: nat) {
    || f.makedirs
    || if !f.open && !present && !StreamFails(f, n) && !f.sync && 0 < size <= maxBytes then !f.chmod
       else if f.remove then present || f.open
       else !present
  }

  /** Exactly when put_as is write-once: for any fault, any stream, and an object that exists or not. */
  lemma LocalPutOnceIff(
    before: Objects, after: Objects, sha: Sha, id: ObjectId, chunks: seq<Chunk>, maxBytes: nat, f: LocalFaults,
    r: Result<Stored, PutError>)
    requires LocalPut(before, after, sha, id, chunks, maxBytes, f, r)
    ensures PutOnce(before, after, sha, id, Concat(chunks), maxBytes, r)
       <==> LocalKeepsPromise(f, id in before, |chunks|, |Concat(chunks)|, maxBytes)
  {
    if id !in before {
      assert before - {id} == before;
    } else {
      assert id !in before - {id};
    }
  }

  /**
   "Never overwrites: fails if the object already exists" holds of LocalStorage.put_as exactly when
   the object does not exist: on a healthy disk, putting an existing id fails and removes the object.
   */
  lemma LocalPutOnceIffAbsent(
    before: Objects, after: Objects, sha: Sha, id: ObjectId, chunks: seq<Chunk>, maxBytes: nat,
    r: Result<Stored, PutError>)
    requires LocalPut(before, after, sha, id, chunks, maxBytes, HEALTHY, r)
    ensures PutOnce(before, after, sha, id, Concat(chunks), maxBytes, r) <==> id !in before
    ensures id in before ==> r == Err(OsError) && after == before - {id}
  {
    if id !in before {
      LocalPutOnce(before, after, sha, id, chunks, maxBytes, HEALTHY, r);
    } else {
      assert id !in after;
    }
  }

  /** The stored object that a second put with the same id destroys. */
  lemma LocalPutRemovesExisting(sha: Sha)
    ensures LocalPut(map[7 := [1]], map[], sha, 7, [[2]], 10, HEALTHY, Err(OsError))
  {
    assert map[7 := [1]] - {7} == map[];
  }

  /** S3 keeps the promise for every id when writes are conditional; without, exactly for absent ids. */
  lemma S3PutOnceIff(
    before: Objects, after: Objects, sha: Sha, conditional: bool, id: ObjectId, chunks: seq<Chunk>, maxBytes: nat,
    f: S3Faults, r: Result<Stored, PutError>)
    requires S3Put(before, after, sha, conditional, id, chunks, maxBytes, f, r)
    ensures PutOnce(before, after, sha, id, Concat(chunks), maxBytes, r) <==> conditional || id !in before || r.Err?
  {
  }

  /** Chunking does not matter: two streams with the same bytes are stored and hashed the same way. */
  lemma ChunkingIsIrrelevant(
    before: Objects, a: Objects, b: Objects, sha: Sha, id: ObjectId, s: seq<Chunk>, t: seq<Chunk>, maxBytes: nat,
    r: Result<Stored, PutError>, q: Result<Stored, PutError>)
    requires Concat(s) == Concat(t)
    requires LocalPut(before, a, sha, id, s, maxBytes, HEALTHY, r)
    requires S3Put(before, b, sha, true, id, t, maxBytes, S3Faults(None, None, false), q)
    ensures id !in before ==> a == b && r.Ok? == q.Ok? && (r.Ok? ==> r == q)
  {
    assert id !in before ==> before - {id} == before;
  }
}
