/**
 * JSON Web Tokens (RFC 7519) as the backend uses them through python-jose:
 * signing and verification are a library the model does not look inside,
 * so a codec is a pair of functions, and what the backend needs of the
 * library is stated once, as the predicate `Sound`.
 */
module Jwt {
  import opened Wrappers
  import opened Json
  import opened Strings

  /** A token's claims set: the JSON object that is signed. */
  type Claims = map<string, Json>

  /** `jwt.encode(claims, SECRET_KEY, algorithm=ALGORITHM)` and
      `jwt.decode(token, SECRET_KEY, algorithms=[ALGORITHM])` at clock `now`
      (whole seconds since the epoch); a decode error carries its message. */
  datatype Codec = Codec(encode: Claims -> string, decode: (string, int) -> Result<Claims, string>)

  /** The claims sets the backend signs: at most a subject and an expiry,
      the expiry a number. */
  predicate Signable(c: Claims) {
    && c.Keys <= {"sub", "exp"}
    && ("exp" in c ==> c["exp"].Num?)
  }

  /** For a signable claims set, what python-jose's decode checks at `now`:
      an `exp` (section 4.1.4 of RFC 7519) must not have passed, and a `sub`
      (section 4.1.2) must be a string. Other registered claims (`aud`,
      `nbf`, `jti`, ...) have checks of their own, and the backend never
      signs them. */
  predicate Acceptable(c: Claims, now: int) {
    && ("exp" in c ==> c["exp"].Num? && now <= c["exp"].n)
    && ("sub" in c ==> c["sub"].Str?)
  }

  /** What the model assumes of the signing library under one fixed secret:
      a token it signed from a signable claims set decodes to those claims
      while they are acceptable and is refused once they are not (an expired `exp`, a `sub`
      that is not a string), and a compact serialization (section 7.1 of RFC 7515) is
      three base64url parts joined by dots, so it is never empty and never
      holds a space. */
  ghost predicate Sound(codec: Codec) {
    && (forall c, now :: Signable(c) && Acceptable(c, now) ==> codec.decode(codec.encode(c), now) == Success(c))
    && (forall c, now :: Signable(c) && !Acceptable(c, now) ==> codec.decode(codec.encode(c), now).Failure?)
    && (forall c :: codec.encode(c) != "" && !Contains(codec.encode(c), " "))
  }

  /** `payload.get("sub")`: `None` when the claim is absent or JSON `null`. */
  function Subject(c: Claims): (r: Option<Json>)
    ensures r.None? <==> "sub" !in c || c["sub"] == Null
    ensures r.Some? ==> r.value == c["sub"] && r.value != Null
  {
    if "sub" in c && c["sub"] != Null then Some(c["sub"]) else None
  }
}
