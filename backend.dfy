/**
 * The FastAPI backend (backend/main.py): an in-memory user registry and
 * refresh-token table, and its three endpoints. Each request runs against
 * the tables and a clock reading `now` in whole seconds; signing is the
 * abstract codec of module Jwt under the backend's one secret.
 */
module Backend {
  import opened Wrappers
  import opened Json
  import opened Strings
  import opened Jwt
  import opened Http

  /** The request body of `POST /api/register`, as validated by its model class. */
  datatype User = User(username: string, email: string, password: string)

  /** An `HTTPException(status_code, detail)`; FastAPI also answers an
      unhandled exception with status 500. */
  datatype HttpError = HttpError(status: int, detail: string)

  /** The body of a successful registration. */
  datatype Registered = Registered(accessToken: string, refreshToken: string, tokenType: string)

  /** The body of a successful refresh. */
  datatype AccessGrant = AccessGrant(accessToken: string, tokenType: string)

  /** The body of a successful secure-data read. */
  datatype SecureData = SecureData(message: string)

  /** ACCESS_TOKEN_EXPIRE_MINUTES, in seconds. */
  const AccessTokenLifetime: int := 15 * 60
  /** The refresh tokens' `timedelta(days=30)`, in seconds. */
  const RefreshTokenLifetime: int := 30 * 24 * 60 * 60

  const SecureDataPrefix: string := "Secure data for "

  const AlreadyRegistered := HttpError(400, "User already registered")
  const InvalidRefreshToken := HttpError(401, "Invalid refresh token")
  const HeaderMissing := HttpError(401, "Authorization header missing")
  const TokenMissing := HttpError(401, "Token missing")
  const EmailMissing := HttpError(401, "User email missing from token")
  const UserNotFound := HttpError(400, "User not found")
  /** What FastAPI answers when a handler raises something other than an HTTPException. */
  const ServerCrash := HttpError(500, "Internal Server Error")

  /** The body a refusal reaches the caller with: FastAPI renders an
      HTTPException as `{"detail": detail}`, and answers an unhandled
      exception with the plain text "Internal Server Error". Neither has a
      `message` member. */
  function ErrorBody(e: HttpError): (j: Json)
    ensures e != ServerCrash ==> j.Obj? && j.fields == map["detail" := Str(e.detail)]
    ensures e == ServerCrash ==> j == Str(ServerCrash.detail)
    ensures Member(j, "message") == None
  {
    if e == ServerCrash then Str(e.detail) else Single("detail", Str(e.detail))
  }

  /** `expires_delta or timedelta(...)`: a zero `timedelta` is falsy in Python,
      so it falls back to the default just as a missing one does. */
  function Lifetime(delta: Option<int>, fallback: int): (d: int)
    ensures d == fallback || delta == Some(d)
    ensures d == fallback <== delta.None? || delta == Some(0)
    ensures d == delta.value <== delta.Some? && delta.value != 0
  {
    if delta.Some? && delta.value != 0 then delta.value else fallback
  }

  /** The copy-and-extend step shared by `create_access_token` and
      `create_refresh_token`: the caller's claims, untouched, plus `exp`. */
  function WithExpiry(data: Claims, delta: Option<int>, fallback: int, now: int): (c: Claims)
    ensures c.Keys == data.Keys + {"exp"}
    ensures c["exp"] == Num(now + Lifetime(delta, fallback))
    ensures forall k :: k in data && k != "exp" ==> c[k] == data[k]
  {
    data["exp" := Num(now + Lifetime(delta, fallback))]
  }

  /** The claims `{"sub": email}` both tokens of a user are made from. */
  function SubjectClaims(email: string): Claims {
    map["sub" := Str(email)]
  }

  /** Lines 111-119 of read_secure_data: the `Authorization` header must be
      present and non-empty, and the token is what follows its last
      `"Bearer "` (the whole header when there is none), which must not be empty. */
  function BearerToken(authorization: Option<string>): (r: Result<string, HttpError>)
    ensures authorization.None? || authorization == Some("") ==> r == Failure(HeaderMissing)
    ensures r.Failure? ==> r.error == HeaderMissing || r.error == TokenMissing
    ensures authorization.Some? && authorization.value != "" ==>
      && r != Failure(HeaderMissing)
      && (r == Failure(TokenMissing) <==> EndsWith(authorization.value, BearerPrefix))
    ensures r.Success? ==>
      && authorization.Some?
      && r.value != ""
      && !Contains(r.value, BearerPrefix)
      && (if Contains(authorization.value, BearerPrefix)
          then EndsWith(authorization.value, BearerPrefix + r.value)
          else r.value == authorization.value)
  {
    if authorization.None? || authorization.value == "" then Failure(HeaderMissing)
    else
      var header := authorization.value;
      var token := Last(Split(header, BearerPrefix));
      AfterLastSeparator(header, BearerPrefix);
      TrailingBearerLeavesNothing(header);
      if token == "" then Failure(TokenMissing) else Success(token)
  }

  /** "Bearer " followed by a short non-empty text never ends in "Bearer "
      again: "Bearer " overlaps no shifted copy of itself. */
  lemma BearerUnshifted(last: string)
    ensures 0 < |last| < |BearerPrefix| ==> !EndsWith(BearerPrefix + last, BearerPrefix)
  {
    if 0 < |last| < |BearerPrefix| {
      var w := BearerPrefix + last;
      assert w[|last|..][6 - |last|] == w[6] == ' ';
      assert BearerPrefix[6 - |last|] != ' ';
    }
  }

  /** A header that ends in "Bearer " leaves nothing after its last one. */
  lemma TrailingBearerLeavesNothing(header: string)
    ensures EndsWith(header, BearerPrefix) ==> Last(Split(header, BearerPrefix)) == ""
  {
    var sep := BearerPrefix;
    var last := Last(Split(header, sep));
    AfterLastSeparator(header, sep);
    EndsWithContains(header, sep);
    // were `last` not empty, `sep + last` and `sep` would both end the header,
    // so `sep` would end `sep + last`: inside `last` when it is long, and
    // overlapping itself when it is short
    EndsWithNested(header, sep, sep + last);
    EndsWithAppended(sep, last, sep);
    EndsWithContains(last, sep);
    BearerUnshifted(last);
  }

  /** The two in-memory tables, `users_db` and `refresh_tokens_db`, under one signing key. */
  class Registry {
    /** `users_db`: email -> registered user. */
    var users: map<string, User>
    /** `refresh_tokens_db`: issued refresh token -> email of its user. */
    var refreshTokens: map<string, string>
    /** jose's encode and decode under SECRET_KEY and HS256. */
    const jwt: Codec

    /** Every user is filed under its own email, and every refresh token
        on file belongs to a registered user and is the one issued to that
        user at some moment. */
    ghost predicate Valid()
      reads this
    {
      && (forall e :: e in users ==> users[e].email == e)
      && refreshTokens.Values <= users.Keys
      && (forall t :: t in refreshTokens ==> exists at :: t == RefreshTokenFor(refreshTokens[t], at))
    }

    /** The tables start empty when the application starts. */
    constructor (jwt: Codec)
      ensures Valid()
      ensures users == map[] && refreshTokens == map[] && this.jwt == jwt
    {
      users := map[];
      refreshTokens := map[];
      this.jwt := jwt;
    }

    /** create_access_token: the signed claims carry `exp` = now + the
        lifetime (15 minutes by default), and read back unchanged. */
    function CreateAccessToken(data: Claims, delta: Option<int>, now: int): (token: string)
      ensures Sound(jwt) ==> token != "" && !Contains(token, " ")
      ensures Sound(jwt) && data.Keys <= {"sub", "exp"} && Acceptable(WithExpiry(data, delta, AccessTokenLifetime, now), now) ==>
        jwt.decode(token, now) == Success(WithExpiry(data, delta, AccessTokenLifetime, now))
    {
      jwt.encode(WithExpiry(data, delta, AccessTokenLifetime, now))
    }

    /** create_refresh_token: as CreateAccessToken, with a 30-day default. */
    function CreateRefreshToken(data: Claims, delta: Option<int>, now: int): (token: string)
      ensures Sound(jwt) ==> token != "" && !Contains(token, " ")
      ensures Sound(jwt) && data.Keys <= {"sub", "exp"} && Acceptable(WithExpiry(data, delta, RefreshTokenLifetime, now), now) ==>
        jwt.decode(token, now) == Success(WithExpiry(data, delta, RefreshTokenLifetime, now))
    {
      jwt.encode(WithExpiry(data, delta, RefreshTokenLifetime, now))
    }

    /** The access token issued to `email` at `now`. */
    function AccessTokenFor(email: string, now: int): string
    {
      CreateAccessToken(SubjectClaims(email), Some(AccessTokenLifetime), now)
    }

    /** The refresh token issued to `email` at `now`. */
    function RefreshTokenFor(email: string, now: int): string
    {
      CreateRefreshToken(SubjectClaims(email), Some(RefreshTokenLifetime), now)
    }

    /** POST /api/register. A known email is refused and nothing changes;
        otherwise exactly that email is added, and the refresh token issued
        with the access token is filed under it. Only the email is checked:
        a username already in use is accepted. */
    method Register(user: User, now: int) returns (r: Result<Registered, HttpError>)
      requires Valid()
      modifies this
      ensures Valid()
      ensures user.email in old(users) ==>
        && r == Failure(AlreadyRegistered)
        && users == old(users)
        && refreshTokens == old(refreshTokens)
      ensures user.email !in old(users) ==>
        && r == Success(Registered(AccessTokenFor(user.email, now), RefreshTokenFor(user.email, now), "bearer"))
        && users == old(users)[user.email := user]
        && refreshTokens == old(refreshTokens)[r.value.refreshToken := user.email]
    {
      if user.email in users {
        return Failure(AlreadyRegistered);
      }
      users := users[user.email := user];
      var accessToken := CreateAccessToken(SubjectClaims(user.email), Some(AccessTokenLifetime), now);
      var refreshToken := CreateRefreshToken(SubjectClaims(user.email), Some(RefreshTokenLifetime), now);
      refreshTokens := refreshTokens[refreshToken := user.email];
      assert refreshToken == RefreshTokenFor(user.email, now);
      r := Success(Registered(accessToken, refreshToken, "bearer"));
    }

    /** Lines 89-92 of refresh_token: the body's `refresh_token` must be a
        truthy value that is a key of the table; a body that is not a JSON
        object (`None` when it does not parse), or a list or dict as the
        token, crashes the handler. */
    function PresentedRefreshToken(body: Option<Json>): (r: Result<string, HttpError>)
      reads this
      ensures r.Success? ==>
        && body.Some?
        && Member(body.value, "refresh_token") == Some(Str(r.value))
        && r.value != ""
        && r.value in refreshTokens
      ensures r.Failure? ==> r.error == InvalidRefreshToken || r.error == ServerCrash
      ensures body.None? || !body.value.Obj? ==> r == Failure(ServerCrash)
      ensures body.Some? && body.value.Obj? && Member(body.value, "refresh_token") in {None, Some(Null), Some(Str(""))} ==>
        r == Failure(InvalidRefreshToken)
      ensures body.Some? && body.value.Obj? && Member(body.value, "refresh_token").Some? ==>
        var presented := Member(body.value, "refresh_token").value;
        && (presented.Str? && presented.s !in refreshTokens ==> r == Failure(InvalidRefreshToken))
        && (presented.Str? && presented.s != "" && presented.s in refreshTokens ==> r == Success(presented.s))
        && ((presented.Arr? || presented.Obj?) && PyTruthy(presented) ==> r == Failure(ServerCrash))
        && (!presented.Str? && !presented.Arr? && !presented.Obj? ==> r == Failure(InvalidRefreshToken))
        && (!PyTruthy(presented) ==> r == Failure(InvalidRefreshToken))
    {
      if body.None? || !body.value.Obj? then Failure(ServerCrash)
      else
        var presented := Member(body.value, "refresh_token");
        if presented.None? || !PyTruthy(presented.value) then Failure(InvalidRefreshToken)
        else if presented.value.Arr? || presented.value.Obj? then Failure(ServerCrash)
        else if presented.value.Str? && presented.value.s in refreshTokens then Success(presented.value.s)
        else Failure(InvalidRefreshToken)
    }

    /** POST /api/token/refresh: a known refresh token that still decodes
        and names a subject yields a new access token for that subject.
        Decoding happens only after the table lookup has passed; every
        refusal is the same 401. The tables are only read. */
    function RefreshToken(body: Option<Json>, now: int): (r: Result<AccessGrant, HttpError>)
      reads this
      ensures PresentedRefreshToken(body).Failure? ==> r == Failure(PresentedRefreshToken(body).error)
      ensures r.Failure? ==> r.error == InvalidRefreshToken || r.error == ServerCrash
      ensures r.Success? ==>
        && PresentedRefreshToken(body).Success?
        && var decoded := jwt.decode(PresentedRefreshToken(body).value, now);
        && decoded.Success?
        && Subject(decoded.value).Some?
        && r.value.tokenType == "bearer"
        && r.value.accessToken == CreateAccessToken(map["sub" := Subject(decoded.value).value], Some(AccessTokenLifetime), now)
      ensures PresentedRefreshToken(body).Success? ==>
        var decoded := jwt.decode(PresentedRefreshToken(body).value, now);
        && ((decoded.Failure? || Subject(decoded.value).None?) <==> r == Failure(InvalidRefreshToken))
        && (decoded.Success? && Subject(decoded.value).Some? ==>
              r == Success(AccessGrant(CreateAccessToken(map["sub" := Subject(decoded.value).value], Some(AccessTokenLifetime), now), "bearer")))
    {
      match PresentedRefreshToken(body)
      case Failure(e) => Failure(e)
      case Success(token) =>
        match jwt.decode(token, now)
        case Failure(_) => Failure(InvalidRefreshToken)
        case Success(payload) =>
          match Subject(payload)
          case None => Failure(InvalidRefreshToken)
          case Some(email) =>
            Success(AccessGrant(CreateAccessToken(map["sub" := email], Some(AccessTokenLifetime), now), "bearer"))
    }

    /** GET /api/secure-data: the data is handed out only to a registered
        user named by the `sub` of a token that decodes; a bad header or a
        bad token is a 401, an unknown user a 400, and a subject that is a
        list or an object cannot be looked up and crashes. The tables are only read. */
    function ReadSecureData(authorization: Option<string>, now: int): (r: Result<SecureData, HttpError>)
      reads this
      ensures BearerToken(authorization).Failure? ==> r == Failure(BearerToken(authorization).error)
      ensures r.Failure? ==> r.error.status == 401 || r.error == UserNotFound || r.error == ServerCrash
      ensures r.Success? ==>
        && BearerToken(authorization).Success?
        && var decoded := jwt.decode(BearerToken(authorization).value, now);
        && decoded.Success?
        && Subject(decoded.value).Some?
        && Subject(decoded.value).value.Str?
        && var email := Subject(decoded.value).value.s;
        && email in users
        && r.value.message == SecureDataPrefix + email
      ensures r == Failure(UserNotFound) ==>
        && BearerToken(authorization).Success?
        && var decoded := jwt.decode(BearerToken(authorization).value, now);
        && decoded.Success?
        && Subject(decoded.value).Some?
        && !(Subject(decoded.value).value.Str? && Subject(decoded.value).value.s in users)
        && !Subject(decoded.value).value.Arr? && !Subject(decoded.value).value.Obj?
      ensures BearerToken(authorization).Success? ==>
        var decoded := jwt.decode(BearerToken(authorization).value, now);
        && (decoded.Failure? ==> r == Failure(HttpError(401, "Token decode error: " + decoded.error)))
        && (decoded.Success? && Subject(decoded.value).None? ==> r == Failure(EmailMissing))
        && (decoded.Success? && Subject(decoded.value).Some? ==>
              var subject := Subject(decoded.value).value;
              && (subject.Str? && subject.s in users ==> r == Success(SecureData(SecureDataPrefix + subject.s)))
              && (subject.Arr? || subject.Obj? ==> r == Failure(ServerCrash))
              && (!(subject.Str? && subject.s in users) && !subject.Arr? && !subject.Obj? ==> r == Failure(UserNotFound)))
    {
      match BearerToken(authorization)
      case Failure(e) => Failure(e)
      case Success(token) =>
        match jwt.decode(token, now)
        case Failure(message) => Failure(HttpError(401, "Token decode error: " + message))
        case Success(payload) =>
          match Subject(payload)
          case None => Failure(EmailMissing)
          case Some(email) =>
            if email.Str? && email.s in users then Success(SecureData(SecureDataPrefix + email.s))
            else if email.Arr? || email.Obj? then Failure(ServerCrash)
            else Failure(UserNotFound)
    }
  }

  /** A header of the form `"Bearer " + token`, for a token without spaces,
      yields exactly that token (or TokenMissing when it is empty). */
  lemma BearerOfToken(token: string)
    requires !Contains(token, " ")
    ensures BearerToken(Some(BearerPrefix + token)) == if token == "" then Failure(TokenMissing) else Success(token)
  {
    var header := BearerPrefix + token;
    assert !Contains(token, BearerPrefix) by {
      if Contains(token, BearerPrefix) {
        assert StartsWith(BearerPrefix[6..], " ");
        ContainsTransitive(token, BearerPrefix, " ");
      }
    }
    assert StartsWith(header, BearerPrefix);
    assert header[|BearerPrefix|..] == token;
    NoSeparatorNoCut(token, BearerPrefix);
    assert Split(header, BearerPrefix) == [""] + [token];
  }

  /** The access token issued at `issued` opens the secure data of its
      registered user at any time up to its expiry. */
  lemma IssuedAccessTokenReadsSecureData(b: Registry, email: string, issued: int, now: int)
    requires Sound(b.jwt)
    requires email in b.users
    requires issued <= now <= issued + AccessTokenLifetime
    ensures b.ReadSecureData(Some(BearerPrefix + b.AccessTokenFor(email, issued)), now)
         == Success(SecureData(SecureDataPrefix + email))
  {
    var token := b.AccessTokenFor(email, issued);
    var claims := WithExpiry(SubjectClaims(email), Some(AccessTokenLifetime), AccessTokenLifetime, issued);
    assert Acceptable(claims, now);
    assert b.jwt.decode(token, now) == Success(claims);
    BearerOfToken(token);
    assert Subject(claims) == Some(Str(email));
  }

  /** A refresh token issued at registration, presented before its expiry
      while still on file, buys an access token for the same user that
      itself decodes to that user with a fresh 15-minute expiry. */
  lemma IssuedRefreshTokenRefreshes(b: Registry, email: string, issued: int, now: int)
    requires Sound(b.jwt)
    requires b.RefreshTokenFor(email, issued) in b.refreshTokens
    requires issued <= now <= issued + RefreshTokenLifetime
    ensures var r := b.RefreshToken(Some(Single("refresh_token", Str(b.RefreshTokenFor(email, issued)))), now);
      && r == Success(AccessGrant(b.AccessTokenFor(email, now), "bearer"))
      && b.jwt.decode(r.value.accessToken, now)
         == Success(map["sub" := Str(email), "exp" := Num(now + AccessTokenLifetime)])
  {
    var token := b.RefreshTokenFor(email, issued);
    var claims := WithExpiry(SubjectClaims(email), Some(RefreshTokenLifetime), RefreshTokenLifetime, issued);
    assert Acceptable(claims, now);
    assert b.jwt.decode(token, now) == Success(claims);
    var body := Single("refresh_token", Str(token));
    assert Member(body, "refresh_token") == Some(Str(token));
    assert b.PresentedRefreshToken(Some(body)) == Success(token);
    assert Subject(claims) == Some(Str(email));
    var renewed := WithExpiry(SubjectClaims(email), Some(AccessTokenLifetime), AccessTokenLifetime, now);
    assert Acceptable(renewed, now);
    assert renewed == map["sub" := Str(email), "exp" := Num(now + AccessTokenLifetime)];
  }

  /** A refresh token on file that still decodes names the user it is filed under. */
  lemma FiledRefreshTokenNamesItsUser(b: Registry, token: string, now: int)
    requires b.Valid() && Sound(b.jwt)
    requires token in b.refreshTokens && b.jwt.decode(token, now).Success?
    ensures Subject(b.jwt.decode(token, now).value) == Some(Str(b.refreshTokens[token]))
  {
    var email := b.refreshTokens[token];
    var issued :| token == b.RefreshTokenFor(email, issued);
    var claims := WithExpiry(SubjectClaims(email), Some(RefreshTokenLifetime), RefreshTokenLifetime, issued);
    assert token == b.jwt.encode(claims);
    // the codec refuses the claims once they are no longer acceptable
    assert Acceptable(claims, now);
    assert b.jwt.decode(token, now) == Success(claims);
    assert claims["sub"] == Str(email);
  }

  /** Whatever refresh succeeds against a consistent registry hands out an
      access token of a registered user, and that token opens the user's
      secure data at once: a refresh token on file was issued to its user,
      and the codec refuses it once it has expired. */
  lemma RefreshedTokenOpensSecureData(b: Registry, body: Option<Json>, now: int)
    requires b.Valid() && Sound(b.jwt)
    requires b.RefreshToken(body, now).Success?
    ensures var email := b.refreshTokens[b.PresentedRefreshToken(body).value];
      && email in b.users
      && b.RefreshToken(body, now).value.accessToken == b.AccessTokenFor(email, now)
      && b.ReadSecureData(Some(BearerPrefix + b.RefreshToken(body, now).value.accessToken), now)
         == Success(SecureData(SecureDataPrefix + email))
  {
    var token := b.PresentedRefreshToken(body).value;
    var email := b.refreshTokens[token];
    FiledRefreshTokenNamesItsUser(b, token, now);
    assert SubjectClaims(email) == map["sub" := Str(email)];
    IssuedAccessTokenReadsSecureData(b, email, now, now);
  }
}
