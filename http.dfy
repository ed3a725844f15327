/** Values shared by the back end and the front end: an optional value
    (SQL NULL, JavaScript null/undefined) and the outcome of an HTTP handler. */
module Http {

  datatype Option<+T> = None | Some(value: T)

  /** What a request handler sends back: a JSON body with status 200, or an
      error status with the `error` text of the JSON envelope. */
  datatype Response<+T> = Ok(body: T) | Fail(status: int, error: string)

  const BadRequest: int := 400
  const NotFound: int := 404
  const ServerError: int := 500
}
