/**
 * JSON values as they travel between the browser, the Next.js proxy routes
 * and the FastAPI backend, with the two notions of truthiness the source
 * relies on: JavaScript's `||` / `if (x)` and Python's `not x`.
 */
module Json {
  import opened Wrappers

  /** A JSON value; numbers are integers in this model. */
  datatype Json =
    | Null
    | Bool(b: bool)
    | Num(n: int)
    | Str(s: string)
    | Arr(items: seq<Json>)
    | Obj(fields: map<string, Json>)

  /** JavaScript's ToBoolean: `null`, `false`, `0` and `""` are falsy; every array and object is truthy. */
  predicate JsTruthy(j: Json) {
    match j
    case Null => false
    case Bool(b) => b
    case Num(n) => n != 0
    case Str(s) => s != ""
    case Arr(_) => true
    case Obj(_) => true
  }

  /** Python's `bool(x)`: as in JavaScript, except that an empty list or dict is falsy too. */
  predicate PyTruthy(j: Json) {
    match j
    case Arr(items) => items != []
    case Obj(fields) => fields != map[]
    case _ => JsTruthy(j)
  }

  /** JavaScript's optional member access `j?.key` (and Python's `j.get(key)` on a dict):
      `None` stands for `undefined`. Only an object has members. */
  function Member(j: Json, key: string): Option<Json> {
    if j.Obj? && key in j.fields then Some(j.fields[key]) else None
  }

  /** A one-member object `{key: value}`. */
  function Single(key: string, value: Json): Json {
    Obj(map[key := value])
  }
}

/** What an HTTP client library hands back when a request fails. */
module Http {
  import opened Wrappers
  import opened Json

  /** The status and parsed body of a response. */
  datatype HttpResponse = HttpResponse(status: int, data: Json)

  /** An axios rejection: `response` is absent when no response arrived (a network error). */
  datatype AxiosError = AxiosError(response: Option<HttpResponse>, message: string)

  /** The scheme word and space that open a bearer `Authorization` header
      (section 2.1 of RFC 6750). */
  const BearerPrefix: string := "Bearer "

  /** The header value that carries a bearer token. */
  function Bearer(token: string): string {
    BearerPrefix + token
  }

  /** What an awaited axios request settles to. */
  datatype Reply<+T> = Answered(value: T) | Rejected(error: AxiosError)
}
