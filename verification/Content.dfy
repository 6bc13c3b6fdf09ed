/** File contents and their digests. */
module Content {

  type Byte = b: nat | b < 256

  type Bytes = seq<Byte>

  /** A SHA-256 value. The 64 hexadecimal digits are read as a number; they sort the same way. */
  type Digest = nat

  /** SHA-256 is any fixed function: nothing here depends on how it is computed. */
  type Sha = Bytes -> Digest

  /** A generated UUID. */
  type ObjectId = nat

  type Objects = map<ObjectId, Bytes>

  function With(objects: Objects, id: ObjectId, data: Bytes): Objects {
    objects[id := data]
  }
}
