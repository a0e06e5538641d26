/** Results of a request handler: a value, or the `{ message, statusCode }`
    object a handler forwards to the shared error middleware with `next(...)`. */
module Outcomes {

  datatype Option<+T> = None | Some(value: T)

  /** The error object a handler passes to `next`. */
  datatype HttpError = HttpError(statusCode: int, message: string)

  datatype Result<+T> = Ok(value: T) | Err(error: HttpError)

  const BadRequest: int := 400
  const NotFound: int := 404
}
