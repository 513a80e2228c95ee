/** Optional values and success-or-error results, standing in for `null`
    returns and thrown exceptions. */
module Results {

  datatype Option<T> = None | Some(value: T)

  datatype Result<T, E> = Ok(value: T) | Err(error: E)
}
