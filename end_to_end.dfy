/**
 * Facts that span components: a bearer header as the browser builds it,
 * through the secure-data route, to the backend's token extraction; and a
 * backend refusal through the register route.
 */
module EndToEnd {
  import opened Wrappers
  import opened Json
  import opened Http
  import opened Strings
  import Backend
  import ClientAuth
  import ApiProxy
  import RegisterApi
  import SecureDataApi

  /** Whatever header reaches the secure-data route, the backend extracts
      from the forwarded header exactly the token the route picked out.
      In particular a request with no header at all reaches the backend as
      the token "undefined", never as a missing header. */
  lemma ForwardedTokenReachesBackend(authorization: Option<string>)
    ensures var token := SecureDataApi.ForwardedToken(authorization);
      Backend.BearerToken(Some(Bearer(token)))
        == if token == "" then Failure(Backend.TokenMissing) else Success(token)
    ensures authorization.None? ==> Backend.BearerToken(Some(Bearer(SecureDataApi.ForwardedToken(authorization)))) == Success("undefined")
  {
    Backend.BearerOfToken(SecureDataApi.ForwardedToken(authorization));
  }

  /** A bearer header built by authenticatedFetch for a token without spaces
      is forwarded by the secure-data route unchanged, and the backend reads
      back that very token. */
  lemma ClientBearerReachesBackend(apiBase: string, token: string, outcome: ApiProxy.Outcome)
    requires !Contains(token, " ")
    ensures SecureDataApi.ForwardedToken(Some(Bearer(token))) == token
    ensures SecureDataApi.Handle(apiBase, Some("GET"), Some(Bearer(token)), outcome).sent
         == Some(ApiProxy.Get(apiBase + "/api/secure-data", Bearer(token)))
    ensures token != "" ==> Backend.BearerToken(Some(Bearer(token))) == Success(token)
  {
    AvoidsCharacter("Bearer", ' ');
    assert Bearer(token) == "Bearer" + " " + token;
    SplitAtFirst("Bearer", " ", token);
    NoSeparatorNoCut(token, " ");
    assert Split(Bearer(token), " ") == ["Bearer", token];
    Backend.BearerOfToken(token);
  }

  /** FastAPI reports a refusal under `detail`, and a crash as plain text,
      while the register route reads `message`: so the browser gets the
      backend's status with the fallback message, never the backend's reason. */
  lemma BackendRefusalLosesReason(apiBase: string, body: Json, e: Backend.HttpError, text: string)
    requires e.status != 0
    ensures RegisterApi.Handle(apiBase, Some("POST"), body,
              ApiProxy.AxiosFailed(AxiosError(Some(HttpResponse(e.status, Backend.ErrorBody(e))), text))).response
         == ApiProxy.Response(e.status, None, ApiProxy.JsonBody(Single("message", Str(ApiProxy.InternalServerError))))
  {
    assert Member(Backend.ErrorBody(e), "message") == None;
  }

  /** Registering an email twice: the second attempt reaches the browser as
      400 "Internal Server Error". */
  lemma DuplicateRegistrationSeenByBrowser(apiBase: string, body: Json, text: string)
    ensures var e := Backend.AlreadyRegistered;
      RegisterApi.Handle(apiBase, Some("POST"), body,
        ApiProxy.AxiosFailed(AxiosError(Some(HttpResponse(e.status, Backend.ErrorBody(e))), text))).response
      == ApiProxy.Response(400, None, ApiProxy.JsonBody(Single("message", Str("Internal Server Error"))))
  {
    BackendRefusalLosesReason(apiBase, body, Backend.AlreadyRegistered, text);
  }
}
