/** Small shared vocabulary: optional values, bytes and integer helpers. */
module Common {

  /** A value that may be absent (Python's None, JavaScript's null/undefined). */
  datatype Option<T> = None | Some(value: T)

  type Byte = bv8
  type Bytes = seq<Byte>

  function Max(a: int, b: int): int { if a >= b then a else b }

  function Min(a: int, b: int): int { if a <= b then a else b }

  /** Some element of a non-empty set. */
  lemma Element<T>(s: set<T>) returns (x: T)
    requires s != {}
    ensures x in s
  {
    x :| x in s;
  }
}
