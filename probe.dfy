/**
 * The probe of the Bamboo REST endpoint: how the credentials for the request
 * are chosen and how its outcome is classified as "up" or "not up".  The
 * HTTP request itself is external; only its outcome is modelled.
 */
module Probe {
  import opened Wrappers

  /** The outcome of one GET of the target URL: a status code, or a transport exception. */
  datatype ProbeResult = Response(statusCode: int) | TransportError

  /**
   * The endpoint is up when it answers 2xx or 3xx; a transport exception is
   * caught and counts as down.
   */
  function IsUp(p: ProbeResult): (up: bool)
    ensures up <==> p.Response? && (p.statusCode / 100 == 2 || p.statusCode / 100 == 3)
  {
    match p
    case Response(code) => 200 <= code < 400
    case TransportError => false
  }

  const UserAgent: string := "bamboo-updown-monitor/1.0"
  const UserAgentHeader: string := "User-Agent"
  const AuthorizationHeader: string := "Authorization"
  const BearerPrefix: string := "Bearer "

  /** Which of the optional authentication schemes a request uses. */
  datatype AuthMode = Bearer(token: string) | Basic(user: string, password: string) | NoAuth

  /** The HTTP basic credentials passed to the request, if any, and its headers. */
  datatype RequestAuth = RequestAuth(basic: Option<(string, string)>, headers: map<string, string>)

  /**
   * A non-empty bearer token takes precedence; otherwise basic authentication
   * is used only when both user and password are non-empty; otherwise none.
   */
  function SelectAuth(bearer: string, user: string, password: string): (m: AuthMode)
    ensures m.Bearer? <==> bearer != ""
    ensures m.Basic? <==> bearer == "" && user != "" && password != ""
    ensures m.NoAuth? <==> bearer == "" && (user == "" || password == "")
    ensures m.Bearer? ==> m.token == bearer
    ensures m.Basic? ==> m.user == user && m.password == password
  {
    if bearer != "" then Bearer(bearer)
    else if user != "" && password != "" then Basic(user, password)
    else NoAuth
  }

  /**
   * The credentials and headers that carry an authentication mode: the
   * User-Agent header always, an Authorization header only for a bearer
   * token, basic credentials only for basic authentication.
   */
  function Encode(m: AuthMode): (r: RequestAuth)
    ensures UserAgentHeader in r.headers && r.headers[UserAgentHeader] == UserAgent
    ensures AuthorizationHeader in r.headers <==> m.Bearer?
    ensures m.Bearer? ==> r.headers[AuthorizationHeader] == BearerPrefix + m.token
    ensures r.basic.Some? <==> m.Basic?
    ensures m.Basic? ==> r.basic.value == (m.user, m.password)
    ensures r.headers.Keys <= {UserAgentHeader, AuthorizationHeader}
  {
    match m
    case Bearer(token) =>
      RequestAuth(None, map[UserAgentHeader := UserAgent, AuthorizationHeader := BearerPrefix + token])
    case Basic(user, password) =>
      RequestAuth(Some((user, password)), map[UserAgentHeader := UserAgent])
    case NoAuth =>
      RequestAuth(None, map[UserAgentHeader := UserAgent])
  }

  /** Reads back the authentication mode a request carries. */
  function Decode(r: RequestAuth): AuthMode
  {
    if AuthorizationHeader in r.headers && BearerPrefix <= r.headers[AuthorizationHeader] then
      Bearer(r.headers[AuthorizationHeader][|BearerPrefix|..])
    else if r.basic.Some? then
      Basic(r.basic.value.0, r.basic.value.1)
    else
      NoAuth
  }

  /** Decoding the request recovers the mode it was built from. */
  lemma DecodeEncode(m: AuthMode)
    ensures Decode(Encode(m)) == m
  {
    if m.Bearer? {
      assert (BearerPrefix + m.token)[|BearerPrefix|..] == m.token;
    }
  }

  /**
   * The credentials and headers of every probe request: the User-Agent
   * header always; an `Authorization: Bearer …` header and no basic
   * credentials when a token is set; basic credentials otherwise when both
   * user and password are set.
   */
  function AuthAndHeaders(bearer: string, user: string, password: string): (r: RequestAuth)
    ensures UserAgentHeader in r.headers && r.headers[UserAgentHeader] == UserAgent
    ensures AuthorizationHeader in r.headers <==> bearer != ""
    ensures bearer != "" ==> r.headers[AuthorizationHeader] == BearerPrefix + bearer && r.basic == None
    ensures r.basic.Some? <==> bearer == "" && user != "" && password != ""
    ensures r.basic.Some? ==> r.basic.value == (user, password)
    ensures r.headers.Keys <= {UserAgentHeader, AuthorizationHeader}
    ensures Decode(r) == SelectAuth(bearer, user, password)
  {
    DecodeEncode(SelectAuth(bearer, user, password));
    Encode(SelectAuth(bearer, user, password))
  }
}
