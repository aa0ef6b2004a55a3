/** Small failure-carrying datatypes shared by the stack model. */
module Results {

  /** A value that may be absent; stands for a nullable `Node*`. */
  datatype Option<+T> = None | Some(value: T)

  /** Either a value or the error an operation signals instead of returning one. */
  datatype Result<+T, +E> = Ok(value: T) | Err(error: E)
}
