/** Shared vocabulary of the two components: optional values (the source's
    nullable references) and results of handlers that can throw. */
module Common {

  /** A value that may be absent, as a nullable reference or `Nullable<T>` is. */
  datatype Option<+T> = None | Some(value: T)

  /** Either the value a handler produces, or the exception it throws. */
  datatype Result<+T, +E> = Ok(value: T) | Err(error: E)

  /** The one exception the modelled code can raise: the platform's date
      library refuses a year outside 1..9999 or a month outside 1..12. */
  datatype Failure = ArgumentOutOfRange
}
