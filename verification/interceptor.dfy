/** The HTTP interceptor that attaches the bearer token to requests for the application's API. */
module Interceptor {
  import opened Common
  import opened Strings
  import opened LocalStorage
  import opened TokenService

  /** An outgoing request: its URL and its headers. */
  datatype Request = Request(url: string, headers: map<string, string>)

  const ApiHost := "localhost:3000"
  const AuthorizationHeader := "Authorization"

  predicate ForApi(req: Request) {
    Contains(req.url, ApiHost)
  }

  /**
   * `intercept`: with a stored token and a URL mentioning the API host, the
   * request gains `Authorization: Bearer <token>`; any other request passes
   * unchanged.
   */
  function Intercept(s: Store, req: Request): (r: Request)
    ensures r.url == req.url
    ensures HasToken(s) && ForApi(req) ==>
      r.headers == req.headers[AuthorizationHeader := "Bearer " + s[TokenKey]]
    ensures !(HasToken(s) && ForApi(req)) ==> r == req
  {
    var token := GetToken(s);
    if Truthy(token) && Contains(req.url, ApiHost) then
      req.(headers := req.headers[AuthorizationHeader := "Bearer " + token.value])
    else req
  }

  /** A request without the header gains the stored bearer token exactly when a token is stored and the URL is the API's. */
  lemma AuthorizedIff(s: Store, req: Request)
    requires AuthorizationHeader !in req.headers
    ensures AuthorizationHeader in Intercept(s, req).headers <==> HasToken(s) && ForApi(req)
    ensures HasToken(s) && ForApi(req) ==> Intercept(s, req).headers[AuthorizationHeader] == "Bearer " + GetToken(s).value
  {
  }

  /** No other header changes. */
  lemma OtherHeadersKept(s: Store, req: Request, h: string)
    requires h != AuthorizationHeader
    ensures h in Intercept(s, req).headers <==> h in req.headers
    ensures h in req.headers ==> Intercept(s, req).headers[h] == req.headers[h]
  {
  }

  /** Intercepting an intercepted request changes nothing more. */
  lemma InterceptIdempotent(s: Store, req: Request)
    ensures Intercept(s, Intercept(s, req)) == Intercept(s, req)
  {
  }

  /** After `clearAuth` no request is given a token. */
  lemma NoTokenAfterLogout(s: Store, req: Request)
    ensures Intercept(ClearAuth(s), req) == req
  {
  }

  /** Requests to the sensor API's base address are the ones the token is added to. */
  lemma SensorApiAuthorized(s: Store, path: string)
    requires HasToken(s)
    ensures AuthorizationHeader in Intercept(s, Request("http://localhost:3000" + path, map[])).headers
  {
    var url := "http://localhost:3000" + path;
    assert url[7..7 + |ApiHost|] == ApiHost;
    assert OccursAt(url, ApiHost, 7);
    ContainsIff(url, ApiHost);
  }
}
