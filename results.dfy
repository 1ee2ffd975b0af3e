/** Failure-carrying values used in place of the program's fatal exits. */
module Results {

  /** A value that may be missing, as returned by the number parsers. */
  datatype Option<+T> = None | Some(value: T)

  /** The success or failure of a step that produces nothing. */
  datatype Outcome<+E> = Pass | Fail(error: E)

  /** A value, or the error that stopped the run before it was produced. */
  datatype Result<+R, +E> = Success(value: R) | Failure(error: E)
}
