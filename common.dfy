/** Wrapper types shared by the whole model: an optional value (a nullable
    handle or a `std::optional`), and the two shapes of an operation that may
    fail (the model's stand-in for a thrown `std::runtime_error`). */
module Common {

  datatype Option<T> = None | Some(value: T)

  /** The outcome of a `void` operation that either returns or throws. */
  datatype Outcome<E> = Pass | Fail(error: E)

  /** The outcome of an operation that returns a value or throws. */
  datatype Result<T, E> = Ok(value: T) | Err(error: E)
}
