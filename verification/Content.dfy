/** File contents and the function that names them. */
module Content {

  newtype byte = x: int | 0 <= x < 256
  type Bytes = seq<byte>

  /** The checksum function. Nothing is assumed of it except where a lemma says so. */
  type Hasher = Bytes -> string

  /** No two of the given streams share a checksum. */
  ghost predicate CollisionFree(hash: Hasher, streams: set<Bytes>) {
    forall a, b | a in streams && b in streams && hash(a) == hash(b) :: a == b
  }
}
