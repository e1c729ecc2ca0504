/** HTTP vocabulary shared by the server routes and the client flows. */
module Http {
  import opened Js

  datatype Method = GET | HEAD | POST | PUT | PATCH | DELETE | OPTIONS

  /** A request the client issues: method, relative path and, for POST, the
      JSON body as the server receives it. */
  datatype Request = Request(verb: Method, path: string, body: Option<map<string, JsValue>>)

  /** What an awaited client call produced: the response data, or a rejection
      carrying the error response's data when the server answered at all. */
  datatype Outcome = Ok(data: JsValue) | Rejected(response: Option<JsValue>)
}
