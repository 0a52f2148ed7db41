/** Small shared vocabulary: an optional value, and MongoDB's `$arrayElemAt`,
    which both the ingestion side and the read projections rely on. */
module Common {

  datatype Option<+T> = None | Some(value: T)

  /** `$arrayElemAt` with a non-negative index: the element at `i`, or a
      missing field when the array is too short. */
  function ArrayElemAt<T>(s: seq<T>, i: nat): Option<T>
  {
    if i < |s| then Some(s[i]) else None
  }
}
