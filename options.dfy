/** The optional-value and success-or-error wrappers the model uses in place of
    Python's `None` and raised exceptions. */
module Options {

  datatype Option<+T> = None | Some(value: T)

  datatype Result<+T, +E> = Ok(value: T) | Err(error: E)
}
