/** Shared value types: optional values, results, and the HTTP errors the
    backend routes raise. */
module Common {

  datatype Option<+T> = None | Some(value: T)

  datatype Result<+T, +E> = Ok(value: T) | Err(error: E)

  /** An HTTP error response: a status code and a detail message. */
  datatype HttpError = HttpError(status: int, detail: string)
}
