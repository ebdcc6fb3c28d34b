/** Optional values and the error path of operations that can raise. */
module Results {

  datatype Option<T> = None | Some(value: T)

  /** The value an operation returns, or the exception it raises. */
  datatype Result<T, E> = Ok(value: T) | Err(error: E)
}
