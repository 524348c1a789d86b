/**
 * The part of JSON Web Tokens (RFC 7519) that both token libraries of the
 * system rely on: a token carries a claims object and an HS256 signature
 * (section 3.2 of RFC 7518) made with a server-held secret, and decoding checks
 * the signature first and the `exp` claim (section 4.1.4 of RFC 7519) second.
 *
 * The signature is symbolic: a token records the key that signed it. The
 * base64url/JSON text form is a codec handed in by the caller, and `Faithful`
 * is all the model assumes of it: parsing undoes serialising. Nothing is
 * assumed about texts the codec did not produce.
 */
module Jwt {
  import opened Wrappers

  /** A claim value, as far as the model needs to tell them apart. */
  datatype Value = Null | Str(s: string) | Num(n: int)

  type Claims = map<string, Value>

  /** `payload.get(key)` in Python, `payload[key]` in JavaScript: the claim, or null when absent. */
  function Get(claims: Claims, key: string): Value {
    if key in claims then claims[key] else Null
  }

  /** A signed token; `signedWith` is None for an unsigned (`alg: none`) token. */
  datatype Token = Token(claims: Claims, signedWith: Option<string>)

  /** The text form of tokens: `encode` serialises, `decode` parses (None: not a token at all). */
  datatype Codec = Codec(encode: Token -> string, decode: string -> Option<Token>)

  /**
   * Parsing undoes serialising, and a serialised token is a single non-empty
   * word (compact serialisation uses base64url text and dots only).
   */
  ghost predicate Faithful(codec: Codec) {
    forall t :: codec.decode(codec.encode(t)) == Some(t) && codec.encode(t) != [] && ' ' !in codec.encode(t)
  }

  /** `jwt.sign(claims, key)` / `jwt.encode(claims, key, algorithm="HS256")`. */
  function Sign(claims: Claims, key: string): (t: Token)
    ensures t.claims == claims && t.signedWith == Some(key)
    ensures forall other :: t.signedWith == Some(other) ==> other == key
  {
    Token(claims, Some(key))
  }

  /** The claims carry a numeric `exp` that is not after `now`. */
  predicate ExpiredAt(claims: Claims, now: int) {
    "exp" in claims && claims["exp"].Num? && claims["exp"].n <= now
  }

  /** The claims carry an `exp` that is not a number. */
  predicate BadExpiry(claims: Claims) {
    "exp" in claims && !claims["exp"].Num?
  }

  datatype Failure = Expired | Invalid

  /**
   * `jwt.verify(text, key)` / `jwt.decode(text, key, algorithms=["HS256"])` at
   * time `now` (seconds): a text that does not parse, a token not signed with
   * `key` or one with a malformed `exp` is Invalid; an authentic token whose
   * `exp` has been reached is Expired; anything else yields its claims.
   */
  function Decode(codec: Codec, text: string, key: string, now: int): (r: Result<Claims, Failure>)
    ensures r.Ok? ==> codec.decode(text) == Some(Sign(r.value, key)) && !ExpiredAt(r.value, now)
    ensures r == Err(Expired) ==> exists c :: codec.decode(text) == Some(Sign(c, key)) && ExpiredAt(c, now)
    ensures r.Ok? || r == Err(Expired) <==> exists c :: codec.decode(text) == Some(Sign(c, key)) && !BadExpiry(c)
  {
    match codec.decode(text)
    case None => Err(Invalid)
    case Some(t) =>
      if t.signedWith != Some(key) || BadExpiry(t.claims) then Err(Invalid)
      else if ExpiredAt(t.claims, now) then Err(Expired)
      else Ok(t.claims)
  }

  /**
   * Round trip: a token signed with the key decodes to exactly its claims
   * before its `exp`, and is Expired from `exp` on.
   */
  lemma SignThenDecode(codec: Codec, claims: Claims, key: string, now: int)
    requires Faithful(codec)
    requires !BadExpiry(claims)
    ensures Decode(codec, codec.encode(Sign(claims, key)), key, now)
            == if ExpiredAt(claims, now) then Err(Expired) else Ok(claims)
  {
    var t := Sign(claims, key);
    assert codec.decode(codec.encode(t)) == Some(t);
  }

  /** A token signed with any other key, or not signed at all, is rejected as Invalid. */
  lemma ForeignTokenRejected(codec: Codec, t: Token, key: string, now: int)
    requires Faithful(codec)
    requires t.signedWith != Some(key)
    ensures Decode(codec, codec.encode(t), key, now) == Err(Invalid)
  {
    assert codec.decode(codec.encode(t)) == Some(t);
  }
}
