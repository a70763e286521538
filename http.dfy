/** The replies the route handlers produce. */
module Http {
  import opened WaitlistTypes

  /** The JSON bodies the handlers send: `{status: ...}` or `{error: ...}`. */
  datatype JsonBody = StatusBody(status: ApiStatus) | ErrorBody(error: string)

  /**
   * `Json` is `NextResponse.json(body, {status})`; `Attachment` is the CSV
   * file download (status 200, its fixed headers not modelled); `Thrown` is
   * an exception that escapes the handler, whose reply is then up to the
   * framework.
   */
  datatype Response =
    | Json(status: int, body: JsonBody)
    | Attachment(status: int, text: string)
    | Thrown(error: string)

  function ErrorReply(status: int, message: string): Response {
    Json(status, ErrorBody(message))
  }
}
