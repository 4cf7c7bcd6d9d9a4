/**
 * HTTP status codes used by the middleware (the status-code module itself is
 * not part of this model; the values are the standard ones) and the error
 * record handed to the responder.
 */
module Http {

  import opened Wrappers

  /** 400 Bad Request, section 15.5.1 of RFC 9110. */
  const BadRequest: int := 400
  /** 401 Unauthorized, section 15.5.2 of RFC 9110. */
  const Unauthorized: int := 401
  /** 404 Not Found, section 15.5.5 of RFC 9110. */
  const NotFound: int := 404
  /** 500 Internal Server Error, section 15.6.1 of RFC 9110. */
  const InternalServerError: int := 500

  /** `ErrorDetails` once every field is filled in. */
  datatype ErrorDetails = ErrorDetails(statusCode: int, reason: string)

  /** `ErrorDetails` as declared, with both fields optional (`None` = key absent). */
  datatype PartialDetails = PartialDetails(statusCode: Option<int>, reason: Option<string>)
}
