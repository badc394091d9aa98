/**
 * Outcomes shared by the request handlers: an optional value, and either a
 * value or the error the web framework turns into a response.
 */
module Outcomes {

  datatype Option<+T> = None | Some(value: T)

  /** The error outcomes a handler can end in. */
  datatype Error =
    /** Request validation failed (a path id or a body field): 422. */
    | Unprocessable
    /** The handler found no current user: 401 "Authentication Failed". */
    | Unauthenticated
    /**
     * The record lookup came back empty. The handlers mean to raise a 404,
     * but they pass the message as `details=` instead of `detail=`, so the
     * exception constructor itself fails with a TypeError and the client
     * gets a server error rather than a clean 404. The model keeps this as
     * an outcome of its own, distinct from the other two.
     */
    | NotFound

  datatype Result<+T> = Ok(value: T) | Err(error: Error)
}
