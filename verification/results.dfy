/** Optional values and the success-or-thrown outcome of a JavaScript call. */
module Results {

  /** A value that may be absent (`undefined` in the source). */
  datatype Option<+T> = None | Some(value: T)

  /**
   * The outcome of a call that either returns a value or throws.  A thrown
   * error is kept as the text the catching code goes on to use (its
   * `message`, or its rendering through a template string, as each caller says).
   */
  datatype Result<+T> = Ok(value: T) | Err(error: string)

  /** The outcome of an awaited call that returns nothing useful or throws. */
  datatype Outcome = Done | Threw(error: string)
}
