/** Small value types shared by every module of the storefront model. */
module Base {

  /** A value that may be absent: JavaScript's `undefined`/`null`. */
  datatype Option<+T> = None | Some(value: T)

  /** The result of an operation that either yields a value or fails with a message. */
  datatype Result<+T> = Ok(value: T) | Err(message: string)

  /** How an awaited network call settled: the promise resolved or it was rejected (threw).
      Every call into the remote API is replaced by one of these, given as an input. */
  datatype Outcome = Resolved | Rejected
}
