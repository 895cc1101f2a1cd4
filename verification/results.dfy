/** Failure-compatible wrappers shared by every layer of the codec.
    A `Result` is either a value or one of the two failure kinds the
    codec surfaces: a `FormatError` for input that cannot be parsed and an
    `EncodingError` for a tree that violates the definition catalog. */
module Results {

  datatype Option<+T> = None | Some(value: T)

  datatype Failure =
    | FormatError(message: string)
    | EncodingError(message: string)

  datatype Result<+T> = Ok(value: T) | Err(failure: Failure) {

    predicate IsFailure() {
      Err?
    }

    function PropagateFailure<U>(): Result<U>
      requires Err?
    {
      Err(failure)
    }

    function Extract(): T
      requires Ok?
    {
      value
    }
  }
}
