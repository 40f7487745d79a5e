/** Token issue and validation (app/security/auth_handler.py): the `exp` generation of
    tokens. Settings are immutable parameters; the clock is an integer parameter in seconds. */
module AuthHandler {
  import opened Wrappers
  import opened Json
  import opened Errors
  import Jwt

  /** `JWTSettings`: algorithm, secret key, and `EXPIRATION`, which the code applies as
      a number of minutes. */
  datatype JwtSettings = JwtSettings(algorithm: string, secretKey: string, expiration: int)

  /** The expiry stamped into a token issued at `now`: `now + EXPIRATION minutes`. */
  function ExpiryOf(settings: JwtSettings, now: int): int
  {
    now + settings.expiration * 60
  }

  /** The claims `create_access_token` signs: the caller's claims with `exp` set to the
      computed expiry, whatever `exp` the caller supplied. */
  function IssuedClaims(settings: JwtSettings, data: Claims, now: int): (r: Claims)
    ensures r.Keys == data.Keys + {"exp"}
    ensures r["exp"] == JInt(ExpiryOf(settings, now))
    ensures forall k :: k in data && k != "exp" ==> r[k] == data[k]
  {
    data["exp" := JInt(ExpiryOf(settings, now))]
  }

  /** The token `create_access_token(data)` returns at clock reading `now`. */
  function AccessToken(s: Jwt.Signer, settings: JwtSettings, data: Claims, now: int): string
  {
    Jwt.Encode(s, settings.secretKey, settings.algorithm, IssuedClaims(settings, data, now))
  }

  /** `create_access_token`: the caller's dict is copied and only the copy is updated, so
      `data` (outside any modifies clause) keeps its entries. */
  method CreateAccessToken(s: Jwt.Signer, settings: JwtSettings, data: Dict, now: int) returns (token: string)
    ensures data.entries == old(data.entries)
    ensures token == AccessToken(s, settings, data.entries, now)
  {
    var toEncode := data.Copy();
    toEncode.Update(map["exp" := JInt(ExpiryOf(settings, now))]);
    assert toEncode.entries == IssuedClaims(settings, data.entries, now);
    token := Jwt.Encode(s, settings.secretKey, settings.algorithm, toEncode.entries);
  }

  /** `_decode_access_token`: the verified payload with the raw token added under `token`;
      an expired token and any other failure raise different 401 errors. */
  function DecodeAccessToken(s: Jwt.Signer, settings: JwtSettings, token: string, now: int): (r: Result<Claims, Exception>)
    ensures r.Ok? <==> Jwt.Decode(s, settings.secretKey, settings.algorithm, token, now).Ok?
    ensures r.Ok? ==> r.value == Jwt.Decode(s, settings.secretKey, settings.algorithm, token, now).value["token" := JStr(token)]
    ensures r == Err(HttpException(401, "Token expired")) <==>
              Jwt.Decode(s, settings.secretKey, settings.algorithm, token, now) == Err(ExpiredSignatureError)
    ensures r == Err(HttpException(401, "Invalid token")) <==>
              Jwt.Decode(s, settings.secretKey, settings.algorithm, token, now) == Err(InvalidTokenError)
  {
    match Jwt.Decode(s, settings.secretKey, settings.algorithm, token, now)
    case Ok(payload) => Ok(payload["token" := JStr(token)])
    case Err(ExpiredSignatureError) => Err(HttpException(401, "Token expired"))
    case Err(_) => Err(HttpException(401, "Invalid token"))
  }

  /** `is_valid_token`: true exactly when decoding raises nothing. */
  function IsValidToken(s: Jwt.Signer, settings: JwtSettings, token: string, now: int): (b: bool)
    ensures b <==> Jwt.Decode(s, settings.secretKey, settings.algorithm, token, now).Ok?
  {
    DecodeAccessToken(s, settings, token, now).Ok?
  }

  /** `get_token_user`: the decoded payload, or the decoding error. */
  function GetTokenUser(s: Jwt.Signer, settings: JwtSettings, token: string, now: int): (r: Result<Claims, Exception>)
    ensures r.Ok? <==> IsValidToken(s, settings, token, now)
    ensures r.Ok? ==> r.value == Jwt.Decode(s, settings.secretKey, settings.algorithm, token, now).value["token" := JStr(token)]
    ensures r == Err(HttpException(401, "Token expired")) <==>
              Jwt.Decode(s, settings.secretKey, settings.algorithm, token, now) == Err(ExpiredSignatureError)
    ensures r.Err? && r.error != HttpException(401, "Token expired") ==> r == Err(HttpException(401, "Invalid token"))
  {
    DecodeAccessToken(s, settings, token, now)
  }

  /** `get_jwt_user_from_token`: the identity built from the decoded payload. The `JWTUser`
      class is not part of this model; the identity is the payload itself. */
  function GetJwtUserFromToken(s: Jwt.Signer, settings: JwtSettings, token: string, now: int): (r: Result<Claims, Exception>)
    ensures r.Ok? <==> IsValidToken(s, settings, token, now)
    ensures r.Ok? ==> r.value.Keys == Jwt.Decode(s, settings.secretKey, settings.algorithm, token, now).value.Keys + {"token"}
    ensures r.Ok? ==> r.value["token"] == JStr(token)
    ensures r.Ok? ==> forall k :: k in r.value && k != "token" ==>
                        k in Jwt.Decode(s, settings.secretKey, settings.algorithm, token, now).value &&
                        r.value[k] == Jwt.Decode(s, settings.secretKey, settings.algorithm, token, now).value[k]
    ensures r == Err(HttpException(401, "Token expired")) <==>
              Jwt.Decode(s, settings.secretKey, settings.algorithm, token, now) == Err(ExpiredSignatureError)
    ensures r.Err? && r.error != HttpException(401, "Token expired") ==> r == Err(HttpException(401, "Invalid token"))
  {
    DecodeAccessToken(s, settings, token, now)
  }

  /** Round trip: before its expiry, an issued token decodes to the issued claims plus
      `token`; from its expiry on, it is refused as expired. */
  lemma IssueThenDecode(s: Jwt.Signer, settings: JwtSettings, data: Claims, issued: int, now: int)
    requires Jwt.Lawful(s)
    ensures var token := AccessToken(s, settings, data, issued);
            && (now < ExpiryOf(settings, issued) ==>
                  GetTokenUser(s, settings, token, now) ==
                    Ok(IssuedClaims(settings, data, issued)["token" := JStr(token)]))
            && (ExpiryOf(settings, issued) <= now ==>
                  GetTokenUser(s, settings, token, now) == Err(HttpException(401, "Token expired")))
  {
    var c := IssuedClaims(settings, data, issued);
    var e := ExpiryOf(settings, issued);
    if now < e {
      Jwt.RoundTrip(s, settings.secretKey, settings.algorithm, c, e, now);
    } else {
      Jwt.ExpiredAfter(s, settings.secretKey, settings.algorithm, c, e, now);
    }
  }

  /** An issued token is valid exactly until its expiry. With a non-positive `EXPIRATION`
      it is never valid at or after the instant it was issued. */
  lemma IssuedTokenValidity(s: Jwt.Signer, settings: JwtSettings, data: Claims, issued: int, now: int)
    requires Jwt.Lawful(s)
    ensures IsValidToken(s, settings, AccessToken(s, settings, data, issued), now) <==>
              now < issued + settings.expiration * 60
    ensures settings.expiration <= 0 && issued <= now ==>
              !IsValidToken(s, settings, AccessToken(s, settings, data, issued), now)
  {
    IssueThenDecode(s, settings, data, issued, now);
  }

  /** The caller cannot choose the expiry: two claim sets that differ only in `exp` are
      issued with the same claims, and so decode to the same identity. Claim sets are
      unordered here, so they are also issued as the same token. */
  lemma CallerExpIgnored(s: Jwt.Signer, settings: JwtSettings, data: Claims, forged: Json, now: int)
    ensures IssuedClaims(settings, data["exp" := forged], now) == IssuedClaims(settings, data, now)
    ensures AccessToken(s, settings, data["exp" := forged], now) == AccessToken(s, settings, data, now)
  {
    assert IssuedClaims(settings, data["exp" := forged], now) == IssuedClaims(settings, data, now);
  }
}
