/** Values shared by every model of the repository. */
module Base {

  datatype Option<+T> = None | Some(value: T)

  type Byte = b: int | 0 <= b < 256
  type Bytes = seq<Byte>

  // "algorithm:hex", as strings (digest.go).
  type Digest = string

  // http.Header seen as a value; a nil map and an empty one read alike.
  type Labels = map<string, seq<string>>

  type StoreId = string

  // SHA-256 is not modelled: every statement holds for any function in its
  // place, and collision freedom is an explicit hypothesis where it is needed.
  type Hash = Bytes -> Digest

  ghost predicate Injective(hash: Hash) {
    forall a, b :: hash(a) == hash(b) ==> a == b
  }

  // The error classes a caller can tell apart (error.go).
  datatype Result = Ok | NotExist | AlreadyExists | DigestMismatch | OtherError
}
