/** The responses the route handlers and the proxy return, as values: pass the request
    on, redirect, or answer with a JSON body, a status and headers. */
module Http {

  datatype Header = Header(name: string, value: string)

  /** `{ ok: true }`, `{ ok: true, sent }` or `{ error }` */
  datatype Body = OkBody | SentBody(sent: nat) | ErrorBody(error: string)

  datatype Response =
    | Next
    | Redirect(status: nat, location: string)
    | Json(status: nat, body: Body, headers: seq<Header>)

  /** `NextResponse.redirect(new URL(path, origin))`, whose default status is 307. */
  function RedirectTo(origin: string, path: string): (r: Response)
    ensures r.Redirect? && r.status == 307
  {
    Redirect(307, origin + path)
  }

  /** `NextResponse.json(body, { status })` without extra headers */
  function JsonStatus(status: nat, body: Body): (r: Response)
    ensures r.Json? && r.status == status && r.body == body && r.headers == []
  {
    Json(status, body, [])
  }
}
