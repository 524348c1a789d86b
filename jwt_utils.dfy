/**
 * The backend's token helpers: configuration of the signing secret, issuing
 * access tokens, and the three ways a request's bearer token is checked.
 * `datetime.utcnow()` is the parameter `now`, in whole seconds; a `timedelta`
 * is a number of seconds.
 */
module JwtUtils {
  import opened Wrappers
  import opened Http
  import opened Jwt

  const ALGORITHM: string := "HS256"
  const ACCESS_TOKEN_EXPIRE_MINUTES: int := 60 * 24 * 7

  const SECRET_NOT_SET: string := "BETTER_AUTH_SECRET environment variable not set"
  const CREDENTIALS_REJECTED: HttpError := HttpError(401, "Could not validate credentials")
  const TOKEN_EXPIRED: HttpError := HttpError(401, "Token has expired")

  /** Loading the module: a missing or empty `BETTER_AUTH_SECRET` is a ValueError. */
  function LoadSecret(env: Option<string>): (r: Result<string, string>)
    ensures r.Ok? <==> env.Some? && env.value != []
    ensures r.Ok? ==> r.value == env.value
    ensures r.Err? ==> r.error == SECRET_NOT_SET
  {
    match env
    case Some(value) => if value == [] then Err(SECRET_NOT_SET) else Ok(value)
    case None => Err(SECRET_NOT_SET)
  }

  /**
   * The `exp` of a new access token: `now + expires_delta` for a non-zero
   * delta; `now` plus seven days when no delta is given or the delta is zero
   * (a zero `timedelta` is falsy).
   */
  function ExpiresAt(now: int, expiresDelta: Option<int>): (exp: int)
    ensures expiresDelta.Some? && expiresDelta.value != 0 ==> exp == now + expiresDelta.value
    ensures expiresDelta.None? || expiresDelta.value == 0 ==> exp == now + 7 * 24 * 3600
  {
    if expiresDelta.Some? && expiresDelta.value != 0 then now + expiresDelta.value
    else now + ACCESS_TOKEN_EXPIRE_MINUTES * 60
  }

  /** `data.copy()` updated with `exp`: the caller's claims with `exp` set, an old `exp` overwritten. */
  function AccessClaims(data: Claims, now: int, expiresDelta: Option<int>): (claims: Claims)
    ensures claims.Keys == data.Keys + {"exp"}
    ensures claims["exp"] == Num(ExpiresAt(now, expiresDelta)) && !BadExpiry(claims)
    ensures forall k :: k in data && k != "exp" ==> claims[k] == data[k]
  {
    data["exp" := Num(ExpiresAt(now, expiresDelta))]
  }

  /** `create_access_token(data, expires_delta)`, signed with the configured secret. */
  function CreateAccessToken(codec: Codec, secret: string, data: Claims, now: int, expiresDelta: Option<int>): (token: string)
    ensures Faithful(codec) ==> token != [] && codec.decode(token) == Some(Sign(AccessClaims(data, now, expiresDelta), secret))
  {
    codec.encode(Sign(AccessClaims(data, now, expiresDelta), secret))
  }

  /**
   * `verify_token`: the payload of an authentic, unexpired token that names a
   * subject. Expiry is reported as such; every other failure, including a
   * missing or null `sub`, as "Could not validate credentials".
   */
  function VerifyToken(codec: Codec, secret: string, token: string, now: int): (r: Result<Claims, HttpError>)
    ensures r.Ok? <==> Decode(codec, token, secret, now).Ok? && Get(Decode(codec, token, secret, now).value, "sub") != Null
    ensures r.Ok? ==> Decode(codec, token, secret, now) == Ok(r.value)
    ensures r == Err(TOKEN_EXPIRED) <==> Decode(codec, token, secret, now) == Err(Expired)
    ensures r.Err? ==> r.error == TOKEN_EXPIRED || r.error == CREDENTIALS_REJECTED
  {
    match Decode(codec, token, secret, now)
    case Err(Expired) => Err(TOKEN_EXPIRED)
    case Err(Invalid) => Err(CREDENTIALS_REJECTED)
    case Ok(payload) => if Get(payload, "sub") == Null then Err(CREDENTIALS_REJECTED) else Ok(payload)
  }

  /**
   * What leaves `verify_token` as the text stands. `import jwt` is PyJWT,
   * which has no `JWTError`; the clause `except jwt.JWTError` is evaluated
   * when any exception other than an expiry reaches it, and that evaluation
   * raises AttributeError (a 500), also for the missing-`sub` error raised
   * inside the same `try`.
   */
  datatype Raised = Http(error: HttpError) | AttributeError

  function VerifyTokenAsWritten(codec: Codec, secret: string, token: string, now: int): (r: Result<Claims, Raised>)
    ensures r.Ok? <==> VerifyToken(codec, secret, token, now).Ok?
    ensures r.Ok? ==> r.value == VerifyToken(codec, secret, token, now).value
    ensures r == Err(Http(TOKEN_EXPIRED)) <==> VerifyToken(codec, secret, token, now) == Err(TOKEN_EXPIRED)
    ensures r == Err(AttributeError) <==> VerifyToken(codec, secret, token, now) == Err(CREDENTIALS_REJECTED)
  {
    match Decode(codec, token, secret, now)
    case Err(Expired) => Err(Http(TOKEN_EXPIRED))
    case Err(Invalid) => Err(AttributeError)
    case Ok(payload) => if Get(payload, "sub") == Null then Err(AttributeError) else Ok(payload)
  }

  /**
   * The discrepancy on one input: a token signed with another key is meant to
   * get 401 "Could not validate credentials" but, as written, raises
   * AttributeError.
   */
  lemma ForeignKeyRaisesAsWritten(codec: Codec, secret: string, other: string, data: Claims, now: int, t: int)
    requires Faithful(codec) && other != secret
    ensures VerifyTokenAsWritten(codec, secret, CreateAccessToken(codec, other, data, now, None), t) == Err(AttributeError)
    ensures VerifyToken(codec, secret, CreateAccessToken(codec, other, data, now, None), t) == Err(CREDENTIALS_REJECTED)
  {
    ForeignKeyRejected(codec, secret, other, data, now, t);
  }

  /** The dict `get_current_user` returns: `sub` and `email` of the payload (null when absent). */
  datatype CurrentUser = CurrentUser(userId: Value, email: Value)

  /**
   * `get_current_user`: the token's subject and email, or the error
   * `verify_token` raised. Its own check for a missing `sub` can never fire,
   * since `verify_token` has already rejected such a payload.
   */
  function GetCurrentUser(codec: Codec, secret: string, token: string, now: int): (r: Result<CurrentUser, HttpError>)
    ensures r.Err? <==> VerifyToken(codec, secret, token, now).Err?
    ensures r.Err? ==> r.error == VerifyToken(codec, secret, token, now).error
    ensures r.Ok? ==> exists c :: codec.decode(token) == Some(Sign(c, secret)) && !ExpiredAt(c, now)
                                 && r.value == CurrentUser(Get(c, "sub"), Get(c, "email")) && r.value.userId != Null
  {
    match VerifyToken(codec, secret, token, now)
    case Err(e) => Err(e)
    case Ok(payload) =>
      var userId := Get(payload, "sub");
      if userId == Null then Err(CREDENTIALS_REJECTED) else Ok(CurrentUser(userId, Get(payload, "email")))
  }

  /**
   * `verify_user_id_in_token`: true exactly when the token is authentic,
   * unexpired and its subject is the expected id; every failure is false.
   */
  function VerifyUserIdInToken(codec: Codec, secret: string, token: string, expected: string, now: int): (ok: bool)
    ensures ok <==> exists c :: codec.decode(token) == Some(Sign(c, secret)) && !BadExpiry(c) && !ExpiredAt(c, now)
                                && Get(c, "sub") == Str(expected)
  {
    match VerifyToken(codec, secret, token, now)
    case Err(_) => false
    case Ok(payload) => Get(payload, "sub") == Str(expected)
  }

  /**
   * An access token issued for a subject is accepted by `verify_token` with
   * its claims until `exp`, and answered "Token has expired" from then on.
   */
  lemma AccessTokenLifetime(codec: Codec, secret: string, data: Claims, now: int, expiresDelta: Option<int>, t: int)
    requires Faithful(codec)
    requires Get(data, "sub") != Null
    ensures VerifyToken(codec, secret, CreateAccessToken(codec, secret, data, now, expiresDelta), t)
            == if t < ExpiresAt(now, expiresDelta) then Ok(AccessClaims(data, now, expiresDelta)) else Err(TOKEN_EXPIRED)
  {
    var claims := AccessClaims(data, now, expiresDelta);
    SignThenDecode(codec, claims, secret, t);
    assert Get(claims, "sub") == Get(data, "sub");
  }

  /** A token signed with another key is rejected with 401, never with the expiry message. */
  lemma ForeignKeyRejected(codec: Codec, secret: string, other: string, data: Claims, now: int, t: int)
    requires Faithful(codec) && other != secret
    ensures VerifyToken(codec, secret, CreateAccessToken(codec, other, data, now, None), t) == Err(CREDENTIALS_REJECTED)
  {
    ForeignTokenRejected(codec, Sign(AccessClaims(data, now, None), other), secret, t);
  }
}
