/** Small shared datatypes: optional values and the outcome of an HTTP call. */
module Common {

  /** A value that may be absent (`null` / `undefined` in the source). */
  datatype Option<+T> = None | Some(value: T) {

    /** The value, or `default` when absent. */
    function GetOr(default: T): T {
      match this
      case Some(v) => v
      case None => default
    }
  }

  /** The outcome of an HTTP request: a decoded body, or an error with its status code. */
  datatype HttpResult<+T> = Ok(body: T) | HttpError(status: int)

  /** The outcome of a call whose failure carries more than a status code. */
  datatype Result<+T, +E> = Success(value: T) | Failure(error: E)
}
