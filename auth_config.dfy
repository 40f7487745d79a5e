/** The older token generation (app/security/auth_config.py): a custom `expires` claim,
    always signed and checked with HS256, and the `JWTBearer` guard. */
module AuthConfig {
  import opened Wrappers
  import opened Json
  import opened Errors
  import opened Users
  import Jwt

  /** `AuthSettings`; its `algorithm` is never consulted. */
  datatype AuthSettings = AuthSettings(secretKey: string, algorithm: string)

  /** The algorithm written into every call to the library. */
  const Algorithm: string := "HS256"

  /** Seconds between signing and the `expires` instant. */
  const Lifetime: int := 2400

  /** `token_response`: the body `{"access_token": token}`. */
  function TokenResponse(token: string): (r: map<string, string>)
    ensures r.Keys == {"access_token"} && r["access_token"] == token
  {
    map["access_token" := token]
  }

  /** The payload `sign_jwt` signs for `user` at clock reading `now`. */
  function SignPayload(user: User, now: int): (r: Claims)
    ensures r.Keys == {"username", "roles", "expires"}
    ensures r["username"] == JStr(user.username)
    ensures r["roles"] == RolesJson(user.roles)
    ensures r["expires"] == JInt(now + Lifetime)
  {
    map["username" := JStr(user.username), "roles" := RolesJson(user.roles), "expires" := JInt(now + Lifetime)]
  }

  /** `sign_jwt`: the token response for the signed payload. */
  function SignJwt(s: Jwt.Signer, settings: AuthSettings, user: User, now: int): (r: map<string, string>)
    ensures r.Keys == {"access_token"}
    ensures r["access_token"] == Jwt.Encode(s, settings.secretKey, Algorithm, SignPayload(user, now))
  {
    TokenResponse(Jwt.Encode(s, settings.secretKey, Algorithm, SignPayload(user, now)))
  }

  /** How Python orders a JSON value against a number: integers as they are, booleans as
      0 and 1; anything else cannot be compared and raises `TypeError`. */
  function AsNumber(j: Json): (r: Option<int>)
    ensures r.Some? <==> j.JInt? || j.JBool?
    ensures j.JInt? ==> r == Some(j.i)
    ensures j.JBool? ==> r == Some(if j.b then 1 else 0)
  {
    match j
    case JInt(i) => Some(i)
    case JBool(b) => Some(if b then 1 else 0)
    case _ => None
  }

  /** The payload has a comparable `expires` that is not before `now`. */
  predicate Unexpired(p: Claims, now: int)
  {
    "expires" in p && AsNumber(p["expires"]).Some? && AsNumber(p["expires"]).value >= now
  }

  /** `decode_jwt`: the payload while `expires >= now` (the boundary instant included), the
      empty dict after that. Library errors are not caught; a payload without `expires`
      raises `KeyError`, one with a non-numeric `expires` raises `TypeError`. */
  function DecodeJwt(s: Jwt.Signer, settings: AuthSettings, token: string, now: int): (r: Result<Claims, Exception>)
    ensures Jwt.Decode(s, settings.secretKey, Algorithm, token, now).Err? ==>
              r == Err(Jwt.Decode(s, settings.secretKey, Algorithm, token, now).error)
    ensures r.Ok? && r.value != map[] <==>
              Jwt.Decode(s, settings.secretKey, Algorithm, token, now).Ok? &&
              Unexpired(Jwt.Decode(s, settings.secretKey, Algorithm, token, now).value, now)
    ensures r.Ok? && r.value != map[] ==> r.value == Jwt.Decode(s, settings.secretKey, Algorithm, token, now).value
    ensures r == Err(KeyError("expires")) <==>
              Jwt.Decode(s, settings.secretKey, Algorithm, token, now).Ok? &&
              "expires" !in Jwt.Decode(s, settings.secretKey, Algorithm, token, now).value
    ensures Jwt.Decode(s, settings.secretKey, Algorithm, token, now).Ok? ==>
              var p := Jwt.Decode(s, settings.secretKey, Algorithm, token, now).value;
              && ("expires" in p && AsNumber(p["expires"]).None? ==> r == Err(TypeError))
              && ("expires" in p && AsNumber(p["expires"]).Some? && AsNumber(p["expires"]).value < now ==>
                    r == Ok(map[]))
  {
    match Jwt.Decode(s, settings.secretKey, Algorithm, token, now)
    case Err(e) => Err(e)
    case Ok(p) =>
      if "expires" !in p then Err(KeyError("expires"))
      else match AsNumber(p["expires"])
        case None => Err(TypeError)
        case Some(x) => if x >= now then Ok(p) else Ok(map[])
  }

  /** `verify_jwt`: a flag that starts false and is set when the decoded payload is
      non-empty; errors from decoding propagate. */
  method VerifyJwt(s: Jwt.Signer, settings: AuthSettings, token: string, now: int) returns (r: Result<bool, Exception>)
    ensures DecodeJwt(s, settings, token, now).Err? ==> r == Err(DecodeJwt(s, settings, token, now).error)
    ensures r == Ok(true) <==>
              Jwt.Decode(s, settings.secretKey, Algorithm, token, now).Ok? &&
              Unexpired(Jwt.Decode(s, settings.secretKey, Algorithm, token, now).value, now)
    ensures r == Ok(false) <==> DecodeJwt(s, settings, token, now) == Ok(map[])
  {
    var isTokenValid := false;
    var payload := DecodeJwt(s, settings, token, now);
    if payload.Err? {
      return Err(payload.error);
    }
    if payload.value != map[] {
      isTokenValid := true;
    }
    return Ok(isTokenValid);
  }

  /** What `HTTPBearer` hands over: the scheme and the credentials of the header. */
  datatype Credentials = Credentials(scheme: string, credentials: string)

  /** `JWTBearer.__call__`: absent credentials, a scheme other than exactly `Bearer`, and a
      token that does not verify each raise their own 403; otherwise the raw credential
      string is returned. */
  method JwtBearerCall(s: Jwt.Signer, settings: AuthSettings, creds: Option<Credentials>, now: int)
    returns (r: Result<string, Exception>)
    ensures creds.None? ==> r == Err(HttpException(403, "Invalid authorization token"))
    ensures creds.Some? && creds.value.scheme != "Bearer" ==>
              r == Err(HttpException(403, "Invalid authentication token"))
    ensures creds.Some? && creds.value.scheme == "Bearer" ==>
              var d := DecodeJwt(s, settings, creds.value.credentials, now);
              && (d.Err? ==> r == Err(d.error))
              && (d == Ok(map[]) ==> r == Err(HttpException(403, "Invalid token or expired token")))
              && (d.Ok? && d.value != map[] ==> r == Ok(creds.value.credentials))
    ensures r.Ok? ==> creds.Some? && r.value == creds.value.credentials
  {
    if creds.Some? {
      if creds.value.scheme != "Bearer" {
        return Err(HttpException(403, "Invalid authentication token"));
      }
      var ok := VerifyJwt(s, settings, creds.value.credentials, now);
      if ok.Err? {
        return Err(ok.error);
      }
      if !ok.value {
        return Err(HttpException(403, "Invalid token or expired token"));
      }
      return Ok(creds.value.credentials);
    } else {
      return Err(HttpException(403, "Invalid authorization token"));
    }
  }

  /** Round trip with the inclusive boundary: the signed payload comes back up to and
      including the instant `now + 2400`, and the empty dict from the next second on. */
  lemma SignThenDecode(s: Jwt.Signer, settings: AuthSettings, user: User, issued: int, now: int)
    requires Jwt.Lawful(s)
    ensures var token := SignJwt(s, settings, user, issued)["access_token"];
            DecodeJwt(s, settings, token, now) ==
              if now <= issued + Lifetime then Ok(SignPayload(user, issued)) else Ok(map[])
  {
    Jwt.RoundTripNoExp(s, settings.secretKey, Algorithm, SignPayload(user, issued), now);
  }

  /** The configured algorithm has no influence on signing or decoding. */
  lemma AlgorithmIgnored(s: Jwt.Signer, key: string, alg1: string, alg2: string, user: User, token: string, now: int)
    ensures SignJwt(s, AuthSettings(key, alg1), user, now) == SignJwt(s, AuthSettings(key, alg2), user, now)
    ensures DecodeJwt(s, AuthSettings(key, alg1), token, now) == DecodeJwt(s, AuthSettings(key, alg2), token, now)
  {
  }

  /** A token of the `exp` generation carries no `expires`, so this decoder raises
      `KeyError` on it while it is unexpired. */
  lemma ExpTokenHasNoExpires(s: Jwt.Signer, settings: AuthSettings, c: Claims, e: int, now: int)
    requires Jwt.Lawful(s)
    requires Jwt.ExpiresAt(c, e) && now < e && "expires" !in c
    ensures DecodeJwt(s, settings, Jwt.Encode(s, settings.secretKey, Algorithm, c), now) == Err(KeyError("expires"))
  {
    Jwt.RoundTrip(s, settings.secretKey, Algorithm, c, e, now);
  }
}
