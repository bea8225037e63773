/** Outcomes of operations that can fail: the thrown errors and early returns of
    the source become values. */
module Results {
  datatype Option<T> = None | Some(value: T)

  datatype Result<T, E> = Success(value: T) | Failure(error: E)
}
