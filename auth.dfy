/**
 * Token and password helpers (backend/auth.py).
 *
 * The JSON Web Token library (RFC 7519, signed with HS256 as in section 3.2
 * of RFC 7518) and bcrypt are foreign code. They enter the model as
 * function-valued collaborators, and what the service relies on them for is
 * stated as predicates that lemmas take as hypotheses.
 */
module Auth {
  import opened Wrappers

  /** A JSON value inside a token payload. */
  datatype Json = JStr(s: string) | JBool(b: bool) | JInt(i: int) | JNull

  /** A token payload: a JSON object. */
  type Claims = map<string, Json>

  const UsernameClaim: string := "username"
  const IsAdminClaim: string := "is_admin"
  /** The registered `exp` claim (section 4.1.4 of RFC 7519), in seconds. */
  const ExpClaim: string := "exp"
  /** `timedelta(weeks=1)` in seconds. */
  const DefaultExpiresDelta: int := 7 * 24 * 60 * 60

  const MissingUsernameMessage: string := "Token payload must include the 'username' key"
  const TokenExpiredDetail: string := "Token expired"
  const InvalidTokenDetail: string := "Invalid token"

  /** The exceptions these helpers raise. */
  datatype Error = ValueError(message: string) | HttpError(status: int, detail: string)

  /** What `jwt.decode` does with a token: return its payload or raise one of two exceptions. */
  datatype JwtDecoded = Decoded(payload: Claims) | ExpiredSignatureError | PyJwtError

  /**
   * `jwt.encode` and `jwt.decode`, already keyed with JWT_SECRET and HS256;
   * `decode` takes the current time because it checks `exp`.
   */
  datatype JwtCodec = JwtCodec(encode: Claims -> string, decode: (string, int) -> JwtDecoded)

  /**
   * The library's round trip: a token it signed decodes to the same payload
   * while `now` is before `exp`, and raises ExpiredSignatureError from `exp` on.
   */
  ghost predicate RoundTrips(codec: JwtCodec) {
    forall claims: Claims, now: int {:trigger codec.decode(codec.encode(claims), now)} ::
      ExpClaim in claims && claims[ExpClaim].JInt? ==>
        codec.decode(codec.encode(claims), now)
          == if now < claims[ExpClaim].i then Decoded(claims) else ExpiredSignatureError
  }

  /** bcrypt: `hashpw(password, salt)` and `checkpw(password, hashed)`; the salt is gensalt()'s random output. */
  datatype Bcrypt = Bcrypt(hashpw: (string, string) -> string, checkpw: (string, string) -> bool)

  /** A password always checks against its own hash, whatever the salt. */
  ghost predicate ChecksOwnHash(bcrypt: Bcrypt) {
    forall password, salt {:trigger bcrypt.hashpw(password, salt)} ::
      bcrypt.checkpw(password, bcrypt.hashpw(password, salt))
  }

  /** No other password checks against a hash (the idealisation of a collision-free hash). */
  ghost predicate RejectsOtherPasswords(bcrypt: Bcrypt) {
    forall password, other, salt {:trigger bcrypt.checkpw(other, bcrypt.hashpw(password, salt))} ::
      password != other ==> !bcrypt.checkpw(other, bcrypt.hashpw(password, salt))
  }

  /** `hash_password`. */
  function HashPassword(bcrypt: Bcrypt, password: string, salt: string): (h: string)
    ensures ChecksOwnHash(bcrypt) ==> bcrypt.checkpw(password, h)
    ensures RejectsOtherPasswords(bcrypt) ==> forall other :: other != password ==> !bcrypt.checkpw(other, h)
  {
    bcrypt.hashpw(password, salt)
  }

  /** `verify_password`. */
  function VerifyPassword(bcrypt: Bcrypt, plain: string, hashed: string): (ok: bool)
    ensures ChecksOwnHash(bcrypt) && (exists salt :: hashed == bcrypt.hashpw(plain, salt)) ==> ok
    ensures RejectsOtherPasswords(bcrypt) && (exists password, salt :: password != plain && hashed == bcrypt.hashpw(password, salt)) ==> !ok
  {
    bcrypt.checkpw(plain, hashed)
  }

  /** The payload `create_access_token` encodes: a copy of `data` with `exp` set (overwritten if present). */
  function TokenPayload(data: Claims, issuedAt: int, expiresDelta: int): (p: Claims)
    ensures p.Keys == data.Keys + {ExpClaim}
    ensures p[ExpClaim] == JInt(issuedAt + expiresDelta)
    ensures forall k :: k in data && k != ExpClaim ==> p[k] == data[k]
  {
    data[ExpClaim := JInt(issuedAt + expiresDelta)]
  }

  /**
   * `create_access_token(data, expires_delta)` at time `now`. The caller's
   * `data` is a value here, so it cannot be mutated.
   */
  function CreateAccessToken(codec: JwtCodec, data: Claims, now: int, expiresDelta: int): (r: Result<string, Error>)
    ensures r.Failure? <==> UsernameClaim !in data
    ensures r.Failure? ==> r.error == ValueError(MissingUsernameMessage)
    ensures r.Success? ==> r.value == codec.encode(TokenPayload(data, now, expiresDelta))
  {
    if UsernameClaim !in data then Failure(ValueError(MissingUsernameMessage))
    else Success(codec.encode(TokenPayload(data, now, expiresDelta)))
  }

  /** `decode_access_token`: the payload, or one of two distinct 401 errors. */
  function DecodeAccessToken(codec: JwtCodec, token: string, now: int): (r: Result<Claims, Error>)
    ensures r.Success? <==> codec.decode(token, now).Decoded?
    ensures r.Success? ==> r.value == codec.decode(token, now).payload
    ensures r == Failure(HttpError(401, TokenExpiredDetail)) <==> codec.decode(token, now).ExpiredSignatureError?
    ensures r == Failure(HttpError(401, InvalidTokenDetail)) <==> codec.decode(token, now).PyJwtError?
  {
    match codec.decode(token, now)
    case Decoded(payload) => Success(payload)
    case ExpiredSignatureError => Failure(HttpError(401, TokenExpiredDetail))
    case PyJwtError => Failure(HttpError(401, InvalidTokenDetail))
  }

  /** `verify_token`: exactly what `decode_access_token` returns or raises, so only ever a 401. */
  function VerifyToken(codec: JwtCodec, token: string, now: int): (r: Result<Claims, Error>)
    ensures r == DecodeAccessToken(codec, token, now)
    ensures r.Failure? ==> r.error.HttpError? && r.error.status == 401
  {
    DecodeAccessToken(codec, token, now)
  }

  /**
   * A freshly issued token decodes to the issued payload, with `username`
   * intact, until `exp`; from then on it is rejected as expired.
   */
  lemma IssuedTokenRoundTrip(codec: JwtCodec, data: Claims, issuedAt: int, expiresDelta: int, now: int)
    requires RoundTrips(codec)
    requires UsernameClaim in data
    ensures CreateAccessToken(codec, data, issuedAt, expiresDelta).Success?
    ensures now < issuedAt + expiresDelta ==>
      && DecodeAccessToken(codec, CreateAccessToken(codec, data, issuedAt, expiresDelta).value, now)
         == Success(TokenPayload(data, issuedAt, expiresDelta))
      && TokenPayload(data, issuedAt, expiresDelta)[UsernameClaim] == data[UsernameClaim]
    ensures issuedAt + expiresDelta <= now ==>
      DecodeAccessToken(codec, CreateAccessToken(codec, data, issuedAt, expiresDelta).value, now)
        == Failure(HttpError(401, TokenExpiredDetail))
  {
    var p := TokenPayload(data, issuedAt, expiresDelta);
    assert codec.decode(codec.encode(p), now)
      == if now < p[ExpClaim].i then Decoded(p) else ExpiredSignatureError;
  }
}
