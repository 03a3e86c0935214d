/** Small failure-carrying wrappers used throughout the model. */
module Common {

  /** A value that may be absent; stands for a nullable reference. */
  datatype Option<+T> = None | Some(value: T)

  /** The outcome of an operation that either returns a value or throws. */
  datatype Result<+T, +E> = Ok(value: T) | Err(error: E)

  /** The larger of n and 1. */
  function AtLeastOne(n: nat): (m: nat)
    ensures m >= 1 && m >= n
    ensures m == n || (n == 0 && m == 1)
  {
    if n == 0 then 1 else n
  }
}
