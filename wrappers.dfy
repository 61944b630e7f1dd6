/** Option and Result, the two failure-carrying shapes used throughout the model. */
module Wrappers {

  /** A Python value that may be `None`. */
  datatype Option<+T> = None | Some(value: T)

  /** The outcome of an operation that either returns a value or raises. */
  datatype Result<+T, +E> = Ok(value: T) | Err(error: E)

  /** FastAPI's `HTTPException(status_code, detail)`. */
  datatype HttpException = HttpException(status: int, detail: string)
}
