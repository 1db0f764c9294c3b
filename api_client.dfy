/**
 * The two interceptors of the front end's HTTP client: every request carries
 * the stored token as a bearer credential, and a 401 response drops the
 * stored token and asks the page to reload before the error goes on to the
 * caller.
 */
module ApiClient {
  import opened Wrappers

  const AuthorizationHeader := "Authorization"
  const BearerPrefix := "Bearer "

  /** The part of the browser the interceptors touch: the `auth_token` entry and the reload request. */
  class Session {
    var authToken: Option<string>
    var reloadRequested: bool

    constructor (token: Option<string>)
      ensures authToken == token && !reloadRequested
    {
      authToken := token;
      reloadRequested := false;
    }
  }

  /** The outgoing request's header map; the other parts of a request pass through untouched. */
  class RequestConfig {
    var headers: map<string, string>

    constructor (headers: map<string, string>)
      ensures this.headers == headers
    {
      this.headers := headers;
    }
  }

  /** A rejected response: its HTTP status, if a response arrived at all. */
  datatype HttpError = HttpError(status: Option<int>, detail: Option<string>)

  predicate IsUnauthorized(error: HttpError) {
    error.status == Some(401)
  }

  /** The credential a bearer header carries, if the header has that form. */
  function TokenOfHeader(header: string): Option<string> {
    if |header| >= |BearerPrefix| && header[..|BearerPrefix|] == BearerPrefix
    then Some(header[|BearerPrefix|..])
    else None
  }

  /**
   * The header the request interceptor adds for a stored token: only a
   * present, non-empty token (a truthy string) yields one, and the header
   * gives the token back.
   */
  function BearerHeader(token: Option<string>): (h: Option<string>)
    ensures h.Some? <==> token.Some? && token.value != ""
    ensures h.Some? ==> TokenOfHeader(h.value) == token
  {
    if token.Some? && token.value != "" then
      var header := BearerPrefix + token.value;
      assert header[..|BearerPrefix|] == BearerPrefix && header[|BearerPrefix|..] == token.value;
      Some(header)
    else None
  }

  /** Every well-formed bearer header with a non-empty credential is the one built for that credential. */
  lemma HeaderRoundTrip(header: string)
    requires TokenOfHeader(header).Some? && TokenOfHeader(header).value != ""
    ensures BearerHeader(TokenOfHeader(header)) == Some(header)
  {
    var t := TokenOfHeader(header).value;
    assert header == header[..|BearerPrefix|] + header[|BearerPrefix|..];
    assert BearerHeader(Some(t)).value == BearerPrefix + t;
  }

  /** The request interceptor: adds the bearer header when a token is stored, and passes the same request on. */
  method AttachAuthToken(config: RequestConfig, session: Session) returns (sent: RequestConfig)
    modifies config
    ensures sent == config
    ensures BearerHeader(session.authToken).Some? ==>
      config.headers == old(config.headers)[AuthorizationHeader := BearerHeader(session.authToken).value]
    ensures BearerHeader(session.authToken).None? ==> config.headers == old(config.headers)
  {
    var header := BearerHeader(session.authToken);
    if header.Some? {
      config.headers := config.headers[AuthorizationHeader := header.value];
    }
    sent := config;
  }

  /**
   * The response interceptor's error path: on a 401 the stored token is
   * removed and a reload requested; in every case the same error is thrown on.
   */
  method OnResponseError(session: Session, error: HttpError) returns (rethrown: HttpError)
    modifies session
    ensures rethrown == error
    ensures IsUnauthorized(error) ==> session.authToken == None && session.reloadRequested
    ensures !IsUnauthorized(error) ==>
      session.authToken == old(session.authToken) && session.reloadRequested == old(session.reloadRequested)
  {
    if IsUnauthorized(error) {
      session.authToken := None;
      session.reloadRequested := true;
    }
    rethrown := error;
  }

  /**
   * After a 401 the request interceptor adds no credential until a new token
   * is stored: the next request goes out with exactly the headers it was
   * built with, so one built without `Authorization` is sent without it.
   */
  method UnauthorizedThenRequest(session: Session, error: HttpError, config: RequestConfig)
    requires IsUnauthorized(error)
    modifies session, config
    ensures session.authToken == None
    ensures config.headers == old(config.headers)
    ensures AuthorizationHeader !in old(config.headers) ==> AuthorizationHeader !in config.headers
  {
    var _ := OnResponseError(session, error);
    var _ := AttachAuthToken(config, session);
  }
}
