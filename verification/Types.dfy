/** Values shared by every component of the model. */
module Types {
  datatype Option<+T> = None | Some(value: T)

  newtype byte = b: int | 0 <= b < 256

  type Bytes = seq<byte>

  /** Raw bytes of a content hash; the empty sequence is the unset digest. */
  type Digest = seq<byte>

  /** A content hash. Nothing is assumed of it unless a lemma says so. */
  type Hasher = Bytes -> Digest

  /** Hub-relative path, and also the key of a remote object. */
  type Path = string

  /** Remote version handle; 0 stands for the empty id. */
  type FileId = nat

  predicate HasPrefix(s: string, prefix: string) {
    |prefix| <= |s| && s[..|prefix|] == prefix
  }

  predicate HasSuffix(s: string, suffix: string) {
    |suffix| <= |s| && s[|s| - |suffix|..] == suffix
  }

  lemma Assoc<T>(a: seq<T>, b: seq<T>, c: seq<T>)
    ensures (a + b) + c == a + (b + c)
  {}
}
