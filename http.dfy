/** What the application exchanges with its backend, with the transport left abstract. */
module Http {

  import opened Wrappers
  import opened Js

  /** An HTTP response as axios hands it over: its status and its parsed body (`response.data`). */
  datatype Response = Response(status: int, data: JsValue)

  /**
   * A rejection as a `catch` block sees it. `response` is present for an HTTP error
   * status and absent for a network failure or an exception thrown by the code itself.
   */
  datatype HttpError = HttpError(response: Option<Response>)

  /** How an awaited call settles: fulfilled with a value or rejected with an error. */
  datatype Outcome<+T> = Ok(value: T) | Err(error: HttpError)

  /** An outgoing request: HTTP method, URL, header map and JSON body. */
  datatype Request = Request(verb: string, url: string, headers: map<string, string>, body: JsValue)

  /** `err.response && err.response.status === status`. */
  predicate HasStatus(err: HttpError, status: int)
    ensures HasStatus(err, status) ==> err.response.Some?
  {
    err.response.Some? && err.response.value.status == status
  }

  const DefaultApiUrl := "http://localhost:8080"

  /** `import.meta.env.VITE_API_URL || 'http://localhost:8080'`; `None` is an unset variable. */
  function ApiUrl(configured: Option<string>): (url: string)
    ensures configured.Some? && configured.value != "" ==> url == configured.value
    ensures configured.None? || configured.value == "" ==> url == DefaultApiUrl
  {
    if configured.Some? && configured.value != "" then configured.value else DefaultApiUrl
  }

  /** The header `Authorization: Bearer <token>`, as every authenticated call writes it. */
  function BearerHeaderValue(token: string): string {
    "Bearer " + token
  }
}
