/** What an operation of the API hands back: a value, or the error the
    framework turns into an HTTP status. */
module Outcomes {

  datatype Option<+T> = None | Some(value: T)

  /** The failures the store's views and forms report:
      - Invalid: a field fails validation (ValidationError, 400),
      - PermissionDenied: the request is refused for lack of rights (403),
      - NotFound: the row is not among those the requester can see (404). */
  datatype Error = Invalid | PermissionDenied | NotFound

  datatype Outcome<+T> = Ok(value: T) | Err(error: Error)
}
