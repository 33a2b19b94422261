/** Vocabulary shared by every module: optional values and the outcome of a service call. */
module Common {

  /** A nullable database column. */
  datatype Option<+T> = None | Some(value: T)

  /** A service call either succeeds with a value or raises; a raised error leaves the caller's rows alone. */
  datatype Result<+T, +E> = Ok(value: T) | Err(error: E)

  /** A part is no larger than the whole. */
  lemma SubsetSize<T>(small: set<T>, large: set<T>)
    requires small <= large
    ensures |small| <= |large|
  {
    assert large == small + (large - small);
  }
}
