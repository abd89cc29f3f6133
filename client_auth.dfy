/**
 * The browser's credential cache (frontend/src/lib/auth.ts): tokens live in
 * the cookies `access_token` and `refresh_token`; a token is acquired with a
 * client-credentials grant (section 4.4 of RFC 6749) when none is stored,
 * reused while its `exp` has not passed, and refreshed once it has; requests
 * then carry it as a bearer token (section 2.1 of RFC 6750).
 *
 * Network requests are not performed: each operation is handed what the
 * server would answer, and reports the requests it made, in order.
 */
module ClientAuth {
  import opened Wrappers
  import opened Json
  import opened Http

  /** The cookie jar: cookie name -> value. */
  type Jar = map<string, string>

  const AccessCookie: string := "access_token"
  const RefreshCookie: string := "refresh_token"
  const RefreshPath: string := "/api/token/refresh"
  const AuthorizationHeader: string := "Authorization"

  /** The NEXT_PUBLIC_AZURE_* settings read from the environment. */
  datatype Config = Config(authUrl: string, clientId: string, clientSecret: string, redirectUri: string, scope: string)

  /** The authorization server's answer (AuthResponse). */
  datatype Grant = Grant(accessToken: string, tokenType: string, expiresIn: int, scope: string, refreshToken: Option<string>)

  /** The refresh endpoint's answer (RefreshResponse). */
  datatype Refreshed = Refreshed(accessToken: string, tokenType: string)

  /** What `jwtDecode` reads out of a token's payload; it reads no signature. */
  datatype Payload = Payload(exp: Option<int>)

  /** The `RequestInit` a caller hands to authenticatedFetch. */
  datatype FetchOptions = FetchOptions(verb: Option<string>, body: Option<string>, headers: map<string, string>)

  /** What `fetch` settles to: a network failure, or a status and a body that may not parse as JSON. */
  datatype FetchReply = NetworkFailure | Received(status: int, body: Option<Json>)

  /** A request the client sends. */
  datatype Call =
    | TokenRequest(url: string, form: seq<(string, string)>)
    | RefreshRequest(url: string, refreshToken: string)
    | FetchRequest(url: string, options: FetchOptions)

  /** What the client's promises reject with. */
  datatype ClientError =
    | RequestFailed(cause: AxiosError)  // an axios rejection, logged and rethrown as is
    | NoRefreshToken                    // Error("No refresh token available")
    | InvalidToken                      // jwtDecode could not read the stored token
    | HttpStatus(status: int)           // Error(`HTTP error! status: ${status}`)
    | FetchFailed                       // fetch rejected, or the body was not JSON

  /** The outcome of an operation: its result, the requests it sent, the jar afterwards. */
  datatype Step<T> = Step(result: Result<T, ClientError>, calls: seq<Call>, jar: Jar)

  /** `Cookies.get(name)`. */
  function Cookie(jar: Jar, name: string): Option<string> {
    if name in jar then Some(jar[name]) else None
  }

  /** JavaScript truthiness of a `string | undefined`. */
  predicate Present(v: Option<string>) {
    v.Some? && v.value != ""
  }

  /** The form of the client-credentials grant, in the source's order. */
  function ClientCredentialsForm(config: Config): seq<(string, string)> {
    [ ("client_id", config.clientId),
      ("scope", config.scope),
      ("redirect_uri", config.redirectUri),
      ("grant_type", "client_credentials"),
      ("client_secret", config.clientSecret) ]
  }

  /** `{...options, headers: {...options.headers, Authorization: `Bearer ${token}`}}`:
      the caller's options and headers survive, except that Authorization is
      always the bearer token. */
  function Authorize(options: FetchOptions, token: string): (r: FetchOptions)
    ensures r.verb == options.verb && r.body == options.body
    ensures r.headers.Keys == options.headers.Keys + {AuthorizationHeader}
    ensures r.headers[AuthorizationHeader] == BearerPrefix + token
    ensures forall name :: name in options.headers && name != AuthorizationHeader ==> r.headers[name] == options.headers[name]
  {
    options.(headers := options.headers[AuthorizationHeader := Bearer(token)])
  }

  /** Lines 99-103 of authenticatedFetch: only a 2xx status yields the parsed body. */
  function ReadResponse(reply: FetchReply): (r: Result<Json, ClientError>)
    ensures r.Success? <==> reply.Received? && 200 <= reply.status <= 299 && reply.body.Some?
    ensures r.Success? ==> r.value == reply.body.value
    ensures reply.Received? && !(200 <= reply.status <= 299) ==> r == Failure(HttpStatus(reply.status))
    ensures reply.Received? && 200 <= reply.status <= 299 && reply.body.None? ==> r == Failure(FetchFailed)
    ensures r.Failure? && r.error != FetchFailed ==> reply.Received? && r == Failure(HttpStatus(reply.status))
  {
    match reply
    case NetworkFailure => Failure(FetchFailed)
    case Received(status, body) =>
      if !(200 <= status <= 299) then Failure(HttpStatus(status))
      else if body.None? then Failure(FetchFailed)
      else Success(body.value)
  }

  /** The credential cache of one browser session. */
  class TokenClient {
    /** The browser's cookies, as js-cookie reads and writes them. */
    var cookies: Jar
    const config: Config
    /** `jwtDecode`: `None` when the token cannot be read. */
    const decodeToken: string -> Option<Payload>

    constructor (config: Config, decodeToken: string -> Option<Payload>, cookies: Jar)
      ensures this.cookies == cookies && this.config == config && this.decodeToken == decodeToken
    {
      this.cookies := cookies;
      this.config := config;
      this.decodeToken := decodeToken;
    }

    /** getAccessToken: one token request; on an answer the access token is
        always stored, the refresh token only when the grant holds one, and
        no other cookie changes; a failure is rethrown and stores nothing. */
    function Acquisition(jar: Jar, acquired: Reply<Grant>): (s: Step<string>)
      ensures s.calls == [TokenRequest(config.authUrl, ClientCredentialsForm(config))]
      ensures acquired.Rejected? ==> s.result == Failure(RequestFailed(acquired.error)) && s.jar == jar
      ensures acquired.Answered? ==>
        && s.result == Success(acquired.value.accessToken)
        && Cookie(s.jar, AccessCookie) == Some(acquired.value.accessToken)
        && Cookie(s.jar, RefreshCookie)
           == (if Present(acquired.value.refreshToken) then acquired.value.refreshToken else Cookie(jar, RefreshCookie))
      ensures forall name :: name != AccessCookie && name != RefreshCookie ==> Cookie(s.jar, name) == Cookie(jar, name)
    {
      var calls := [TokenRequest(config.authUrl, ClientCredentialsForm(config))];
      match acquired
      case Rejected(e) => Step(Failure(RequestFailed(e)), calls, jar)
      case Answered(grant) =>
        var withAccess := jar[AccessCookie := grant.accessToken];
        var stored := if Present(grant.refreshToken) then withAccess[RefreshCookie := grant.refreshToken.value] else withAccess;
        Step(Success(grant.accessToken), calls, stored)
    }

    /** refreshAccessToken: without a refresh cookie it fails before any
        request; otherwise one refresh request, whose new access token is
        stored. Only the access cookie can change. */
    function Refreshing(jar: Jar, refreshed: Reply<Refreshed>): (s: Step<string>)
      ensures !Present(Cookie(jar, RefreshCookie)) ==> s == Step(Failure(NoRefreshToken), [], jar)
      ensures Present(Cookie(jar, RefreshCookie)) ==>
        && s.calls == [RefreshRequest(RefreshPath, jar[RefreshCookie])]
        && (refreshed.Rejected? ==> s.result == Failure(RequestFailed(refreshed.error)))
        && (refreshed.Answered? ==> s.result == Success(refreshed.value.accessToken))
      ensures forall name :: name != AccessCookie ==> Cookie(s.jar, name) == Cookie(jar, name)
      ensures s.result.Failure? ==> s.jar == jar
      ensures s.result.Success? ==> Cookie(s.jar, AccessCookie) == Some(s.result.value)
    {
      var refreshToken := Cookie(jar, RefreshCookie);
      if !Present(refreshToken) then Step(Failure(NoRefreshToken), [], jar)
      else
        var calls := [RefreshRequest(RefreshPath, refreshToken.value)];
        match refreshed
        case Rejected(e) => Step(Failure(RequestFailed(e)), calls, jar)
        case Answered(answer) => Step(Success(answer.accessToken), calls, jar[AccessCookie := answer.accessToken])
    }

    /** The inner tokenExpires of getToken, at Date.now() = `nowMs`: the token
        has expired exactly when its `exp` lies strictly before the current
        whole second; a token without `exp` never expires. */
    function TokenExpires(token: string, nowMs: int): (r: Result<bool, ClientError>)
      ensures r.Failure? <==> decodeToken(token).None?
      ensures r.Failure? ==> r.error == InvalidToken
      ensures r == Success(true) <==>
        && decodeToken(token).Some?
        && decodeToken(token).value.exp.Some?
        && (decodeToken(token).value.exp.value + 1) * 1000 <= nowMs
    {
      match decodeToken(token)
      case None => Failure(InvalidToken)
      case Some(payload) => Success(payload.exp.Some? && payload.exp.value < nowMs / 1000)
    }

    /** getToken: acquire when no access token is stored, reuse it while it
        has not expired, refresh it once it has. It sends at most one
        request, never acquires while a token is stored, changes no cookie
        unless it sends one, and what it returns is the access cookie afterwards. */
    function TokenPlan(jar: Jar, nowMs: int, acquired: Reply<Grant>, refreshed: Reply<Refreshed>): (s: Step<string>)
      ensures |s.calls| <= 1
      ensures s.calls == [] ==> s.jar == jar
      ensures !Present(Cookie(jar, AccessCookie)) ==> s == Acquisition(jar, acquired)
      ensures Present(Cookie(jar, AccessCookie)) ==> forall call :: call in s.calls ==> call.RefreshRequest?
      ensures s.result.Success? ==> Cookie(s.jar, AccessCookie) == Some(s.result.value)
    {
      var token := Cookie(jar, AccessCookie);
      if !Present(token) then Acquisition(jar, acquired)
      else
        match TokenExpires(token.value, nowMs)
        case Failure(e) => Step(Failure(e), [], jar)
        case Success(expired) =>
          if expired then Refreshing(jar, refreshed) else Step(Success(token.value), [], jar)
    }

    method GetAccessToken(acquired: Reply<Grant>) returns (token: Result<string, ClientError>, calls: seq<Call>)
      modifies this
      ensures Step(token, calls, cookies) == Acquisition(old(cookies), acquired)
    {
      calls := [TokenRequest(config.authUrl, ClientCredentialsForm(config))];
      match acquired
      case Rejected(e) =>
        token := Failure(RequestFailed(e));
      case Answered(grant) =>
        cookies := cookies[AccessCookie := grant.accessToken];
        if Present(grant.refreshToken) {
          cookies := cookies[RefreshCookie := grant.refreshToken.value];
        }
        token := Success(grant.accessToken);
    }

    method RefreshAccessToken(refreshed: Reply<Refreshed>) returns (token: Result<string, ClientError>, calls: seq<Call>)
      modifies this
      ensures Step(token, calls, cookies) == Refreshing(old(cookies), refreshed)
    {
      var refreshToken := Cookie(cookies, RefreshCookie);
      if !Present(refreshToken) {
        return Failure(NoRefreshToken), [];
      }
      calls := [RefreshRequest(RefreshPath, refreshToken.value)];
      match refreshed
      case Rejected(e) =>
        token := Failure(RequestFailed(e));
      case Answered(answer) =>
        cookies := cookies[AccessCookie := answer.accessToken];
        token := Success(answer.accessToken);
    }

    method GetToken(nowMs: int, acquired: Reply<Grant>, refreshed: Reply<Refreshed>)
      returns (token: Result<string, ClientError>, calls: seq<Call>)
      modifies this
      ensures Step(token, calls, cookies) == TokenPlan(old(cookies), nowMs, acquired, refreshed)
    {
      var stored := Cookie(cookies, AccessCookie);
      if !Present(stored) {
        token, calls := GetAccessToken(acquired);
        return;
      }
      var expired := TokenExpires(stored.value, nowMs);
      if expired.Failure? {
        return Failure(expired.error), [];
      }
      token, calls := Success(stored.value), [];
      if expired.value {
        token, calls := RefreshAccessToken(refreshed);
      }
    }

    /** authenticatedFetch: the request goes out only once getToken has
        produced a token, and carries it as the bearer Authorization header. */
    method AuthenticatedFetch(url: string, options: FetchOptions, nowMs: int,
                              acquired: Reply<Grant>, refreshed: Reply<Refreshed>, fetched: FetchReply)
      returns (r: Result<Json, ClientError>, calls: seq<Call>)
      modifies this
      ensures var s := TokenPlan(old(cookies), nowMs, acquired, refreshed);
        && cookies == s.jar
        && (s.result.Failure? ==> r == Failure(s.result.error) && calls == s.calls)
        && (s.result.Success? ==>
              && r == ReadResponse(fetched)
              && calls == s.calls + [FetchRequest(url, Authorize(options, s.result.value))])
    {
      var token, tokenCalls := GetToken(nowMs, acquired, refreshed);
      if token.Failure? {
        return Failure(token.error), tokenCalls;
      }
      calls := tokenCalls + [FetchRequest(url, Authorize(options, token.value))];
      r := ReadResponse(fetched);
    }
  }

  /** With no access cookie, getToken sends exactly one request, the
      client-credentials grant, and returns the token it grants. */
  lemma NoStoredTokenAcquiresOnce(client: TokenClient, jar: Jar, nowMs: int, acquired: Reply<Grant>, refreshed: Reply<Refreshed>)
    requires !Present(Cookie(jar, AccessCookie))
    ensures var s := client.TokenPlan(jar, nowMs, acquired, refreshed);
      && s.calls == [TokenRequest(client.config.authUrl, ClientCredentialsForm(client.config))]
      && s.calls[0].form[3] == ("grant_type", "client_credentials")
      && (acquired.Answered? ==> s.result == Success(acquired.value.accessToken))
  {
  }

  /** A stored token whose `exp` is not before the current second is
      returned as it is, with no request and no cookie change; `exp` equal
      to the current second still counts as valid. */
  lemma UnexpiredTokenReused(client: TokenClient, jar: Jar, nowMs: int, acquired: Reply<Grant>, refreshed: Reply<Refreshed>)
    requires Present(Cookie(jar, AccessCookie))
    requires client.decodeToken(jar[AccessCookie]).Some?
    requires var exp := client.decodeToken(jar[AccessCookie]).value.exp; exp.Some? ==> exp.value >= nowMs / 1000
    ensures client.TokenPlan(jar, nowMs, acquired, refreshed) == Step(Success(jar[AccessCookie]), [], jar)
  {
  }

  /** A token stays valid through the whole second named by its `exp` and
      has expired from the first millisecond of the next one. */
  lemma ExpiryBoundary(client: TokenClient, token: string, exp: int)
    requires client.decodeToken(token) == Some(Payload(Some(exp)))
    ensures client.TokenExpires(token, exp * 1000) == Success(false)
    ensures client.TokenExpires(token, exp * 1000 + 999) == Success(false)
    ensures client.TokenExpires(token, exp * 1000 + 1000) == Success(true)
  {
  }

  /** An expired token with a refresh cookie present costs exactly one
      refresh request, with that refresh token; the refreshed token is
      returned and becomes the access cookie, and nothing else changes. */
  lemma ExpiredTokenRefreshedOnce(client: TokenClient, jar: Jar, nowMs: int, acquired: Reply<Grant>, answer: Refreshed)
    requires Present(Cookie(jar, AccessCookie)) && Present(Cookie(jar, RefreshCookie))
    requires client.TokenExpires(jar[AccessCookie], nowMs) == Success(true)
    ensures client.TokenPlan(jar, nowMs, acquired, Answered(answer))
         == Step(Success(answer.accessToken), [RefreshRequest(RefreshPath, jar[RefreshCookie])],
                 jar[AccessCookie := answer.accessToken])
  {
  }

  /** When refreshing an expired token fails, for want of a refresh cookie
      or because the request is rejected, getToken fails too: it does not
      fall back to a new acquisition, and it stores nothing. */
  lemma RefreshFailureIsFinal(client: TokenClient, jar: Jar, nowMs: int, acquired: Reply<Grant>, refreshed: Reply<Refreshed>)
    requires Present(Cookie(jar, AccessCookie))
    requires client.TokenExpires(jar[AccessCookie], nowMs) == Success(true)
    requires !Present(Cookie(jar, RefreshCookie)) || refreshed.Rejected?
    ensures var s := client.TokenPlan(jar, nowMs, acquired, refreshed);
      && s.result.Failure?
      && (!Present(Cookie(jar, RefreshCookie)) ==> s.result.error == NoRefreshToken && s.calls == [])
      && (refreshed.Rejected? ==> s.result.error == NoRefreshToken || s.result.error == RequestFailed(refreshed.error))
      && (Present(Cookie(jar, RefreshCookie)) && refreshed.Rejected? ==>
            s == Step(Failure(RequestFailed(refreshed.error)), [RefreshRequest(RefreshPath, jar[RefreshCookie])], jar))
      && (forall call :: call in s.calls ==> !call.TokenRequest?)
      && s.jar == jar
  {
  }

  /** A stored token that jwtDecode cannot read makes getToken throw before
      any request: nothing is sent, nothing is acquired, no cookie changes. */
  lemma UnreadableTokenRejected(client: TokenClient, jar: Jar, nowMs: int, acquired: Reply<Grant>, refreshed: Reply<Refreshed>)
    requires Present(Cookie(jar, AccessCookie))
    requires client.decodeToken(jar[AccessCookie]).None?
    ensures client.TokenPlan(jar, nowMs, acquired, refreshed) == Step(Failure(InvalidToken), [], jar)
  {
  }

  /** Only an acquisition can change the refresh cookie. */
  lemma RefreshCookieChangesOnlyByAcquisition(client: TokenClient, jar: Jar, nowMs: int, acquired: Reply<Grant>, refreshed: Reply<Refreshed>)
    ensures var s := client.TokenPlan(jar, nowMs, acquired, refreshed);
      Cookie(s.jar, RefreshCookie) != Cookie(jar, RefreshCookie) ==>
        && s.calls == [TokenRequest(client.config.authUrl, ClientCredentialsForm(client.config))]
        && acquired.Answered?
        && Cookie(s.jar, RefreshCookie) == acquired.value.refreshToken
  {
  }
}
