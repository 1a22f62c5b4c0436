/** Optional values and results with an HTTP status as the error, the shapes
    the route handlers and the client components return. */
module Outcomes {

  datatype Option<T> = None | Some(value: T)

  /** A value, or the HTTP status code of the response that ends the request. */
  datatype Result<T> = Ok(value: T) | Fail(status: int)

  const OK: int := 200
  const CREATED: int := 201
  const BAD_REQUEST: int := 400
  const UNAUTHORIZED: int := 401
  const FORBIDDEN: int := 403
  const NOT_FOUND: int := 404
  const CONFLICT: int := 409
  const INTERNAL_ERROR: int := 500
}
