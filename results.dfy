/** Failure-carrying return values shared by the DSP routines. */
module Results {

  /** A value that may be absent, e.g. a variance whose denominator would be zero. */
  datatype Option<+T> = None | Some(value: T)

  /** A computed value or the reason it could not be computed. */
  datatype Result<+R, +E> = Success(value: R) | Failure(error: E)
}
