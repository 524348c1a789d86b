/** Option and Result, the two failure-carrying datatypes the rest of the model returns. */
module Wrappers {

  datatype Option<+T> = None | Some(value: T)

  datatype Result<+T, +E> = Ok(value: T) | Err(error: E)
}

/** FastAPI's `HTTPException(status_code, detail)`, as a value. */
module Http {

  datatype HttpError = HttpError(status: int, detail: string)
}
