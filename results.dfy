/** Result values standing in for the exceptions the game raises. */
module Results {

  /** A value, or the reason it could not be produced. */
  datatype Result<+T, +E> = Ok(value: T) | Err(error: E)

  /** The outcome of a check that returns nothing when it passes. */
  datatype Check<+E> = Pass | Fail(error: E)
}
