/**
 * What the two Next.js API routes (frontend/src/pages/api/) have in common:
 * each forwards one request to the backend and turns what comes back into
 * its own response. A route is a function from the incoming request and the
 * backend's outcome to the request it forwarded (if any) and its response.
 */
module ApiProxy {
  import opened Wrappers
  import opened Json
  import opened Http

  const InternalServerError: string := "Internal Server Error"

  /** How the awaited backend call settled. */
  datatype Outcome =
    | Delivered(data: Json)        // a 2xx response and its body
    | AxiosFailed(error: AxiosError)
    | Crashed                      // anything thrown that is not an axios error

  datatype Body = JsonBody(value: Json) | TextBody(text: string)

  /** A response: its status, its `Allow` header when set, and its body. */
  datatype Response = Response(status: int, allow: Option<seq<string>>, body: Body)

  /** A request forwarded to the backend. */
  datatype Request =
    | Post(url: string, payload: Json)
    | Get(url: string, authorization: string)

  /** One handled request: what was forwarded (nothing for a refused method) and the answer. */
  datatype Exchange = Exchange(sent: Option<Request>, response: Response)

  /** `error.response?.data?.message || "Internal Server Error"`. */
  function ErrorMessage(error: AxiosError): (m: Json)
    ensures JsTruthy(m)
    ensures m == Str(InternalServerError) || (error.response.Some? && Member(error.response.value.data, "message") == Some(m))
    ensures error.response.Some? && Member(error.response.value.data, "message").Some? &&
            JsTruthy(Member(error.response.value.data, "message").value) ==>
              m == Member(error.response.value.data, "message").value
  {
    var message := if error.response.Some? then Member(error.response.value.data, "message") else None;
    if message.Some? && JsTruthy(message.value) then message.value else Str(InternalServerError)
  }

  /** The axios branch of the catch: the backend's status (500 when there is
      none, or it is 0) and `{message}`. */
  function FailureResponse(error: AxiosError): (r: Response)
    ensures r.status != 0
    ensures error.response.Some? && error.response.value.status != 0 ==> r.status == error.response.value.status
    ensures error.response.None? || error.response.value.status == 0 ==> r.status == 500
    ensures r.allow.None? && r.body == JsonBody(Single("message", ErrorMessage(error)))
  {
    var status := if error.response.Some? && error.response.value.status != 0 then error.response.value.status else 500;
    Response(status, None, JsonBody(Single("message", ErrorMessage(error))))
  }

  /** The answer to a forwarded request: a success passes the backend's body
      through verbatim with 200; every failure becomes a `{message}` object
      whose message is never falsy. */
  function Relay(outcome: Outcome): (r: Response)
    ensures outcome.Delivered? ==> r == Response(200, None, JsonBody(outcome.data))
    ensures outcome.AxiosFailed? ==> r == FailureResponse(outcome.error)
    ensures outcome.Crashed? ==> r == Response(500, None, JsonBody(Single("message", Str(InternalServerError))))
    ensures !outcome.Delivered? ==>
      && r.body.JsonBody? && r.body.value.Obj?
      && r.body.value.fields.Keys == {"message"}
      && JsTruthy(r.body.value.fields["message"])
  {
    match outcome
    case Delivered(data) => Response(200, None, JsonBody(data))
    case AxiosFailed(error) => FailureResponse(error)
    case Crashed => Response(500, None, JsonBody(Single("message", Str(InternalServerError))))
  }

  /** `${req.method}` in a template string. */
  function MethodText(verb: Option<string>): string {
    if verb.Some? then verb.value else "undefined"
  }

  /** The answer to any other method: 405 naming the one allowed method. */
  function MethodNotAllowed(verb: Option<string>, allowed: string): (r: Response)
    ensures r.status == 405 && r.allow == Some([allowed])
    ensures r.body == TextBody("Method " + MethodText(verb) + " Not Allowed")
  {
    Response(405, Some([allowed]), TextBody("Method " + MethodText(verb) + " Not Allowed"))
  }
}

/** POST /api/register (frontend/src/pages/api/register.tsx). */
module RegisterApi {
  import opened Wrappers
  import opened Json
  import opened Http
  import opened ApiProxy

  /** The handler: only POST is forwarded, with the request body as it
      came, to the backend's /api/register. */
  function Handle(apiBase: string, verb: Option<string>, body: Json, outcome: Outcome): (r: Exchange)
    ensures r.sent.Some? <==> verb == Some("POST")
    ensures verb != Some("POST") ==> r.response == MethodNotAllowed(verb, "POST")
    ensures verb == Some("POST") ==>
      && r.sent == Some(Post(apiBase + "/api/register", body))
      && r.response == Relay(outcome)
  {
    if verb == Some("POST") then Exchange(Some(Post(apiBase + "/api/register", body)), Relay(outcome))
    else Exchange(None, MethodNotAllowed(verb, "POST"))
  }

  /** A refused method never reaches the backend: its answer does not
      depend on what the backend would have said. */
  lemma RefusedMethodIgnoresBackend(apiBase: string, verb: Option<string>, body: Json, one: Outcome, other: Outcome)
    requires verb != Some("POST")
    ensures Handle(apiBase, verb, body, one) == Handle(apiBase, verb, body, other)
    ensures Handle(apiBase, verb, body, one).response.status == 405
  {
  }

  /** A backend refusal that names its reason under `message` reaches the
      browser with the same status and message. */
  lemma BackendMessagePassesThrough(apiBase: string, body: Json, status: int, message: string, text: string)
    requires status != 0 && message != ""
    ensures Handle(apiBase, Some("POST"), body,
                   AxiosFailed(AxiosError(Some(HttpResponse(status, Single("message", Str(message)))), text))).response
         == Response(status, None, JsonBody(Single("message", Str(message))))
  {
    assert Member(Single("message", Str(message)), "message") == Some(Str(message));
  }
}

/** GET /api/secureData (frontend/src/pages/api/secureData.tsx). */
module SecureDataApi {
  import opened Wrappers
  import opened Http
  import opened Strings
  import opened ApiProxy

  /** `req.headers.authorization?.split(" ")[1]`, as it is interpolated into
      a template string: the field between the first and the second space,
      and the text "undefined" when there is no header or no space. */
  function ForwardedToken(authorization: Option<string>): (t: string)
    ensures !Contains(t, " ")
    ensures authorization.None? || !Contains(authorization.value, " ") ==> t == "undefined"
    ensures authorization.Some? && Contains(authorization.value, " ") ==>
      var header := authorization.value;
      var head := Split(header, " ")[0];
      && !Contains(head, " ")
      && (header == head + " " + t || StartsWith(header, head + " " + t + " "))
  {
    AvoidsCharacter("undefined", ' ');
    if authorization.None? then "undefined"
    else
      var header := authorization.value;
      var fields := Split(header, " ");
      FirstTwoFields(header, " ");
      if |fields| >= 2 then fields[1] else "undefined"
  }

  /** The handler: only GET is forwarded, to the backend's /api/secure-data,
      with the extracted token re-wrapped as a bearer header. */
  function Handle(apiBase: string, verb: Option<string>, authorization: Option<string>, outcome: Outcome): (r: Exchange)
    ensures r.sent.Some? <==> verb == Some("GET")
    ensures verb != Some("GET") ==> r.response == MethodNotAllowed(verb, "GET")
    ensures verb == Some("GET") ==>
      && r.sent == Some(Get(apiBase + "/api/secure-data", Bearer(ForwardedToken(authorization))))
      && r.response == Relay(outcome)
  {
    if verb == Some("GET") then
      Exchange(Some(Get(apiBase + "/api/secure-data", Bearer(ForwardedToken(authorization)))), Relay(outcome))
    else Exchange(None, MethodNotAllowed(verb, "GET"))
  }

  /** A refused method never reaches the backend. */
  lemma RefusedMethodIgnoresBackend(apiBase: string, verb: Option<string>, authorization: Option<string>, one: Outcome, other: Outcome)
    requires verb != Some("GET")
    ensures Handle(apiBase, verb, authorization, one) == Handle(apiBase, verb, authorization, other)
    ensures Handle(apiBase, verb, authorization, one).response.status == 405
  {
  }
}
