# Token lifecycle of the Azure auth demo, modelled in Dafny

The system is a small registration demo in three parts:

- a FastAPI backend (`backend/main.py`) that keeps two in-memory tables,
  registered users by email and issued refresh tokens by token, and serves
  `POST /api/register`, `POST /api/token/refresh` and `GET /api/secure-data`;
- a browser-side credential cache (`frontend/src/lib/auth.ts`) that keeps an
  access token and a refresh token in cookies. It acquires a token with a
  client-credentials grant (section 4.4 of RFC 6749) when none is stored. It
  reuses the stored token while its `exp` has not passed and refreshes it
  once it has. It attaches the token to requests as a bearer header
  (section 2.1 of RFC 6750);
- two Next.js API routes (`frontend/src/pages/api/register.tsx`,
  `frontend/src/pages/api/secureData.tsx`) that gate the HTTP method, forward
  the request to the backend and normalise the backend's failures.

The model, one module per part:

- `Backend` (backend.dfy): the two tables are the map fields of the class
  `Registry`. `Register` is a method that updates them. The refresh and
  secure-data endpoints only read the tables, so they are functions with
  `reads this`. Each request gets the clock reading `now` in whole seconds.
- `Jwt` (jwt.dfy): signing and verification (RFC 7519, python-jose) are not
  modelled. A `Codec` is a pair of functions, `encode` and `decode`. The
  predicate `Sound` states what the backend relies on:
  - a token signed from claims with at most a `sub` and a numeric `exp`,
    the only claims the backend signs, decodes to those claims while they
    are acceptable (`exp`, section 4.1.4, not passed; `sub` a string), and
    is refused once they are not;
  - a token is never empty and never contains a space.

  Every lemma that needs this lists `Sound(...)` among its preconditions.
- `ClientAuth` (client_auth.dfy): the class `TokenClient` holds the cookie jar
  as a map and is given `jwtDecode` as a function.
  - Each network request is replaced by a parameter: the answer the server
    would give, or the rejection.
  - Each operation reports the requests it sent, in order.
  - The specification functions `Acquisition`, `Refreshing` and `TokenPlan`
    give each operation's result, requests and new jar. The methods
    `GetAccessToken`, `RefreshAccessToken`, `GetToken` and
    `AuthenticatedFetch` are proved against them.
  - The clock is `Date.now()` in milliseconds.
- `ApiProxy`, `RegisterApi` and `SecureDataApi` (api_proxy.dfy): each route
  is a function. It maps the request method and the backend's outcome to two
  things: the request it forwarded, if any, and its response.
- `Strings` (strings.dfy): the `split` of Python and of JavaScript (leftmost,
  non-overlapping cuts) and the facts the header parsing needs.
- `Json`, `Http`, `Wrappers`: JSON values with JavaScript and Python
  truthiness, axios error shapes, `Option` and `Result`.
- `EndToEnd` (end_to_end.dfy): facts that span the three parts.

Three decisions about the client follow the code exactly:

- A stored token counts as expired only when `exp` is strictly before the
  current whole second, so `exp` equal to the current second is still valid.
- A failed refresh is rethrown. It does not fall back to a new acquisition.
- Errors are the ones that reach the caller unchanged: axios rejections,
  jwt-decode's failure to read a token, `fetch` and `response.json()`
  rejections, and the `Error`s the code throws. The model adds no error
  taxonomy of its own.

## Model

| member | source | states |
|---|---|---|
| `Backend.Lifetime` | backend/main.py:55 | `expires_delta or default`: a missing or zero delta gives the default; any other delta is used as given |
| `Backend.WithExpiry` | backend/main.py:54-56 | token claims are the caller's claims, unchanged, plus exactly one key `exp` = now + lifetime |
| `Backend.Registry.CreateAccessToken` | backend/main.py:53-58 | under a sound codec the token is non-empty and has no space; when the caller's claims hold at most `sub` and `exp`, it decodes to those claims with `exp` = now + lifetime (default 15 minutes) while they are acceptable |
| `Backend.Registry.CreateRefreshToken` | backend/main.py:60-65 | as for the access token, with a 30-day default |
| `Backend.Registry.constructor` | backend/main.py:45-46 | both tables start empty; the invariant holds |
| `Backend.Registry.Register` | backend/main.py:67-85 | a known email gives 400 "User already registered" and leaves both tables unchanged; a new email adds exactly that key, files the issued refresh token under it and returns both tokens with type "bearer"; only the email is checked; keeps the invariant that users are filed by email and every refresh token on file belongs to a registered user and was issued to that user |
| `Backend.Registry.PresentedRefreshToken` | backend/main.py:89-92 | a non-empty string token on file is accepted as it is; an absent or falsy token (null, empty string, empty list or object, false, 0), a string not in the table, or a number or boolean gives 401 "Invalid refresh token"; a body that is not an object, or a non-empty list or object as the token, gives 500 |
| `Backend.Registry.RefreshToken` | backend/main.py:87-107 | the table lookup comes before decoding, and its failure is the answer; a decode failure or a missing `sub` gives 401, and nothing else does; a token that decodes with a `sub` always gets a new access token for that `sub`, with type "bearer" |
| `Backend.BearerToken` | backend/main.py:111-119 | a missing or empty header gives 401 "Authorization header missing". Otherwise the token is the text after the last "Bearer ", or the whole header when there is none. The token contains no "Bearer ". An empty token gives 401 "Token missing" |
| `Backend.Registry.ReadSecureData` | backend/main.py:109-132 | header errors come first; a decode failure gives 401 "Token decode error: " + reason; a missing `sub` gives 401; a subject that is a list or an object cannot be looked up and gives 500; any other subject that is not a registered email gives 400 "User not found"; success is exactly "Secure data for " + a registered email named by the token |
| `Jwt.Subject` | backend/main.py:96 | `payload.get("sub")`: there is no subject exactly when `sub` is absent or null; otherwise the subject is the `sub` claim as it is |
| `Backend.ErrorBody` | backend/main.py:70 | an HTTPException reaches the caller as exactly `{"detail": detail}`, an unhandled exception as the plain text "Internal Server Error"; neither has a `message` member |
| `Backend.TrailingBearerLeavesNothing` | backend/main.py:116-119 | a header ending in "Bearer " leaves an empty token, which is what makes "Token missing" exactly the headers ending in "Bearer " |
| `Backend.FiledRefreshTokenNamesItsUser` | backend/main.py:94-98 | against a registry that keeps its invariant, a refresh token on file that still decodes has as its `sub` the email it is filed under |
| `Backend.RefreshedTokenOpensSecureData` | backend/main.py:94-107 | against a registry that keeps its invariant, every successful refresh hands out the access token of the registered user the refresh token is filed under, and that token opens the user's secure data |
| `Backend.BearerOfToken` | backend/main.py:116-119 | the header "Bearer " + t, for t without spaces, yields t (or 401 "Token missing" when t is empty) |
| `Backend.IssuedAccessTokenReadsSecureData` | backend/main.py:121-132 | an access token issued to a registered email opens that email's secure data until it expires |
| `Backend.IssuedRefreshTokenRefreshes` | backend/main.py:94-107 | a refresh token on file, before its expiry, yields a new access token for the same email that decodes with `exp` = now + 15 minutes |
| `Strings.Split` | backend/main.py:116 | `str.split(sep)` and `String.split(sep)` for a non-empty separator: always at least one piece |
| `Strings.PiecesAreFree` | frontend/src/pages/api/secureData.tsx:12 | no piece of a split contains the separator |
| `Strings.SplitJoin` | backend/main.py:116 | splitting loses nothing: joining the pieces with the separator gives the text back |
| `Strings.AfterLastSeparator` | backend/main.py:116 | the last piece of `split` contains no separator and is what follows the last occurrence, or the whole text when there is none |
| `Strings.FirstTwoFields` | frontend/src/pages/api/secureData.tsx:12 | there are two pieces exactly when the separator occurs; the first two contain no separator; the text starts with the first, the separator and the second, then ends or has the separator again |
| `Strings.SplitAtFirst` | frontend/src/pages/api/secureData.tsx:12 | with a one-character separator, a head without it is cut off as the first piece |
| `ClientAuth.TokenClient.constructor` | frontend/src/lib/auth.ts:12-16 | the client starts from the browser's cookies, its configuration and `jwtDecode` |
| `ClientAuth.TokenClient.Acquisition` | frontend/src/lib/auth.ts:19-43 | exactly one client-credentials token request; a rejection is rethrown and stores nothing; an answer is returned and always becomes the access cookie; the refresh cookie is written only when the grant holds a non-empty one and otherwise keeps its old value; no other cookie changes |
| `ClientAuth.TokenClient.GetAccessToken` | frontend/src/lib/auth.ts:19-43 | its result, requests and new cookies are those of `Acquisition` |
| `ClientAuth.TokenClient.Refreshing` | frontend/src/lib/auth.ts:66-84 | with no refresh cookie it fails with "No refresh token available" and sends nothing; otherwise exactly one refresh request carrying that cookie; a rejection is rethrown and stores nothing; the refreshed token is returned and stored; the refresh cookie never changes |
| `ClientAuth.TokenClient.RefreshAccessToken` | frontend/src/lib/auth.ts:66-84 | its result, requests and new cookies are those of `Refreshing` |
| `ClientAuth.TokenClient.TokenExpires` | frontend/src/lib/auth.ts:52-57 | an unreadable token is an error; the token has expired exactly when it has an `exp` and (exp + 1) * 1000 <= Date.now(); a token without `exp` never expires |
| `ClientAuth.TokenClient.TokenPlan` | frontend/src/lib/auth.ts:45-64 | with no access cookie it is the acquisition; with one it never acquires; it sends at most one request; without a request no cookie changes; a returned token is the access cookie afterwards |
| `ClientAuth.TokenClient.GetToken` | frontend/src/lib/auth.ts:45-64 | its result, requests and new cookies are those of `TokenPlan` |
| `ClientAuth.Authorize` | frontend/src/lib/auth.ts:91-97 | the caller's options and other headers survive; Authorization is always "Bearer " + token, overriding the caller's |
| `ClientAuth.ReadResponse` | frontend/src/lib/auth.ts:99-103 | only a 2xx status with a JSON body yields that body; any other status is an error carrying the status; a 2xx answer whose body is not JSON, or a fetch that fails, rejects as a fetch failure |
| `ClientAuth.TokenClient.AuthenticatedFetch` | frontend/src/lib/auth.ts:86-104 | a token failure is rethrown and nothing is fetched; otherwise, after getToken's requests, exactly one fetch with the bearer header of the token getToken returned, whose outcome is read by `ReadResponse` |
| `ClientAuth.NoStoredTokenAcquiresOnce` | frontend/src/lib/auth.ts:46-50 | with no access cookie, getToken sends exactly one request, a client_credentials grant, and returns its token |
| `ClientAuth.UnexpiredTokenReused` | frontend/src/lib/auth.ts:52-63 | a stored token with `exp` >= the current second is returned unchanged, with no request and no cookie change |
| `ClientAuth.ExpiryBoundary` | frontend/src/lib/auth.ts:54-56 | a token is valid through the whole second named by `exp` and expired from the next millisecond on |
| `ClientAuth.ExpiredTokenRefreshedOnce` | frontend/src/lib/auth.ts:59-61 | an expired token with a refresh cookie costs exactly one refresh request with that cookie; the refreshed token is returned and becomes the access cookie; nothing else changes |
| `ClientAuth.RefreshFailureIsFinal` | frontend/src/lib/auth.ts:59-83 | when refreshing an expired token fails, getToken fails, sends no acquisition and stores nothing; with a refresh cookie present, a rejected refresh is rethrown as it is after exactly one refresh request |
| `ClientAuth.UnreadableTokenRejected` | frontend/src/lib/auth.ts:52-59 | a stored token that jwtDecode cannot read makes getToken reject with no request and no cookie change |
| `ClientAuth.RefreshCookieChangesOnlyByAcquisition` | frontend/src/lib/auth.ts:33-38 | getToken changes the refresh cookie only by an acquisition whose grant carries one |
| `ApiProxy.ErrorMessage` | frontend/src/pages/api/register.tsx:24 | the message is the backend body's truthy `message`, else "Internal Server Error"; it is never falsy |
| `ApiProxy.FailureResponse` | frontend/src/pages/api/register.tsx:23-25 | an axios failure keeps the backend's status, or 500 when there is no response or its status is 0; the body is `{message}` |
| `ApiProxy.Relay` | frontend/src/pages/api/register.tsx:12-29 | a success answers 200 with the backend body verbatim; an axios failure as above; any other error 500 "Internal Server Error"; every failure is a one-member `{message}` object with a truthy message |
| `ApiProxy.MethodNotAllowed` | frontend/src/pages/api/register.tsx:31-33 | 405 with `Allow` naming the one allowed method and the text "Method <m> Not Allowed" |
| `RegisterApi.Handle` | frontend/src/pages/api/register.tsx:10-34 | a request is forwarded exactly when the method is POST, with the body unchanged, to /api/register; the answer is the relayed outcome; any other method gets 405 with Allow ["POST"] |
| `RegisterApi.RefusedMethodIgnoresBackend` | frontend/src/pages/api/register.tsx:31-33 | a refused method's answer does not depend on the backend, and it is 405 |
| `RegisterApi.BackendMessagePassesThrough` | frontend/src/pages/api/register.tsx:23-25 | a backend refusal with a non-empty `message` reaches the browser with its status and message |
| `SecureDataApi.ForwardedToken` | frontend/src/pages/api/secureData.tsx:12-17 | the forwarded token is the field between the first and the second space of the header, and contains no space; with no header or no space it is the text "undefined" |
| `SecureDataApi.Handle` | frontend/src/pages/api/secureData.tsx:10-36 | a request is forwarded exactly when the method is GET, to /api/secure-data with "Bearer " + the forwarded token; the answer is the relayed outcome; any other method gets 405 with Allow ["GET"] |
| `SecureDataApi.RefusedMethodIgnoresBackend` | frontend/src/pages/api/secureData.tsx:33-35 | a refused method's answer does not depend on the backend, and it is 405 |
| `EndToEnd.ForwardedTokenReachesBackend` | frontend/src/pages/api/secureData.tsx:12-17 | the backend extracts exactly the token the route forwarded; with no header at all, the backend sees the token "undefined" rather than a missing header |
| `EndToEnd.ClientBearerReachesBackend` | frontend/src/lib/auth.ts:95 | the bearer header built by authenticatedFetch passes the secure-data route unchanged, and the backend reads back the same token |
| `EndToEnd.BackendRefusalLosesReason` | frontend/src/pages/api/register.tsx:24 | FastAPI reports refusals under `detail` and crashes as plain text, so the register route answers with the backend's status and "Internal Server Error", never the backend's reason |
| `EndToEnd.DuplicateRegistrationSeenByBrowser` | backend/main.py:69-70 | registering an email twice reaches the browser as 400 "Internal Server Error" |

## Left out

- JWT signing and verification (python-jose's `jwt.encode`/`jwt.decode`, `jwtDecode` of jwt-decode) are library code. They are functions given to the model. What the backend needs of them is the predicate `Jwt.Sound`, which is a precondition of the lemmas and not proved. It speaks only of claims sets with at most `sub` and `exp`, the only ones the backend signs; python-jose's checks of other claims (`aud`, `nbf`, `jti`, `at_hash`) are not modelled.
- Azure Key Vault and `ClientSecretCredential`, environment loading, CORS middleware and the uvicorn launch: configuration and I/O. The secret key is inside the codec. The client's settings are the `Config` record. The API base URL is a parameter of the routes.
- FastAPI routing and request validation: a `User` body is taken as already validated, so the 422 answers are not modelled. The refresh body is an already parsed JSON value, or `None` when it does not parse.
- axios, `fetch` and js-cookie are not modelled: a request is the answer it would get, and the cookie store is a map. Cookie options (`secure: true`) are not modelled.
- `console.error` logging in every catch block.
- Concurrency: the async scheduling and the duplicate refresh when several callers find the token expired at once.
- Clocks: `datetime.utcnow()` and `Date.now()` are integer parameters. The backend's clock is in whole seconds. `register` reads the clock once for both of its tokens, not twice.
- JSON numbers are integers. A non-numeric `exp` on the client side is not modelled, nor a JSON `null` where the client expects a token.
- `ClientAuth.ReadResponse`: the error keeps the status but not the text of its message, "HTTP error! status: <status>".
- `ClientAuth.Authorize`: caller headers are a map; a `Headers` object or an array of pairs as `options.headers` is not modelled. Header names are matched exactly, so a caller's lower-case `authorization` header is kept beside `Authorization`, where HTTP, whose header names are case-insensitive, would combine the two.
- `EndToEnd.ForwardedTokenReachesBackend`: headers are taken to reach the backend exactly as they were built. HTTP parsers strip whitespace around a header value, so the header "Bearer " forwarded for an empty field arrives as "Bearer"; the backend then answers with a decode error, not with "Token missing" as the lemma states for the unstripped header.
- `EndToEnd.ClientBearerReachesBackend`: the same assumption of headers delivered verbatim.
- `registerUser` (frontend/src/lib/auth.ts:106-114): it posts the user to the register route and returns the answer's data or rethrows; it holds no state and adds no logic beyond `RegisterApi.Handle`.
- The refresh request goes to the relative path `/api/token/refresh`, as written. Which server answers it is not modelled.
- The React pages and components, and frontend/src/types.ts, whose shapes appear here as datatypes.
