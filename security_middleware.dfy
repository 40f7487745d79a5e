/** The per-request gate (app/middleware/security_middleware.py): allow-listed paths pass
    untouched; any other request needs an `Authorization` header whose token, with every
    `Bearer ` removed, validates; the decoded identity is then stored on the request
    before the next handler runs. The clock is read twice, once to validate the token and
    once to decode it for the identity, so the two readings are separate parameters. */
module SecurityMiddleware {
  import opened Wrappers
  import opened Json
  import opened Errors
  import AuthHandler
  import Jwt

  // ---------------------------------------------------------------- allow-list

  /** The pattern ends in the wildcard `*`. */
  predicate EndsWithStar(pattern: string)
  {
    |pattern| > 0 && pattern[|pattern| - 1] == '*'
  }

  /** One allow-list entry against a path: a starred entry matches every path that starts
      with the entry minus its star (no segment boundary is required); every entry also
      matches the identical path. */
  predicate Matches(pattern: string, path: string)
  {
    (EndsWithStar(pattern) && pattern[..|pattern| - 1] <= path) || path == pattern
  }

  /** Some entry of the allow-list matches the path. */
  predicate Allowed(allowed: seq<string>, path: string)
  {
    exists i :: 0 <= i < |allowed| && Matches(allowed[i], path)
  }

  /** `_is_allowed_path`: the entries are tried in order and the first match returns. */
  method IsAllowedPath(allowed: seq<string>, path: string) returns (b: bool)
    ensures b <==> Allowed(allowed, path)
  {
    for i := 0 to |allowed|
      invariant forall j :: 0 <= j < i ==> !Matches(allowed[j], path)
    {
      var pattern := allowed[i];
      if |pattern| > 0 && pattern[|pattern| - 1] == '*' && pattern[..|pattern| - 1] <= path {
        return true;
      }
      if path == pattern {
        return true;
      }
    }
    return false;
  }

  /** A starred entry matches exactly the paths that extend its stem. */
  lemma StarMatchesStem(pattern: string, path: string)
    requires EndsWithStar(pattern)
    ensures Matches(pattern, path) <==> pattern[..|pattern| - 1] <= path
  {
    if path == pattern {
      assert pattern[..|pattern| - 1] == path[..|pattern| - 1];
    }
  }

  /** An entry without a star matches only itself. */
  lemma PlainMatchesOnlyItself(pattern: string, path: string)
    requires !EndsWithStar(pattern)
    ensures Matches(pattern, path) <==> path == pattern
  {
  }

  /** With no entries, no path is allowed. */
  lemma EmptyAllowListAllowsNothing(path: string)
    ensures !Allowed([], path)
  {
  }

  /** The wildcard is not segment-aware: `/health*` admits `/health`, `/health/live` and
      `/healthz`, and neither it nor `/health` admits `/other`. */
  lemma HealthExamples()
    ensures Matches("/health*", "/health") && Matches("/health*", "/health/live") && Matches("/health*", "/healthz")
    ensures Matches("/health", "/health") && !Matches("/health", "/health/live")
    ensures !Matches("/health*", "/other") && !Matches("/health", "/other")
  {
    assert "/health" <= "/health/live";
    assert "/health" <= "/healthz";
  }

  // ---------------------------------------------------------------- bearer token

  /** `pat` occurs in `s` starting at index `i`. */
  predicate OccursAt(s: string, pat: string, i: int)
    requires 0 <= i <= |s|
  {
    pat <= s[i..]
  }

  /** `pat` occurs somewhere in `s`. */
  predicate Contains(s: string, pat: string)
  {
    exists i :: 0 <= i <= |s| && OccursAt(s, pat, i)
  }

  /** `s.replace(pat, "")`: occurrences are found left to right, without overlap, and
      deleted; the text produced is not scanned again. */
  function RemoveAll(s: string, pat: string): (r: string)
    requires pat != ""
    ensures |r| <= |s|
    decreases |s|
  {
    if s == [] then []
    else if pat <= s then RemoveAll(s[|pat|..], pat)
    else [s[0]] + RemoveAll(s[1..], pat)
  }

  /** The scheme text deleted from the header. */
  const Scheme: string := "Bearer "

  /** The token the middleware hands to the validator: the header with every `Bearer `
      deleted in one pass. A header without one is handed over as it is. */
  function StripBearer(header: string): (r: string)
    ensures |r| <= |header|
    ensures !Contains(header, Scheme) ==> r == header
  {
    var r := RemoveAll(header, Scheme);
    if Contains(header, Scheme) then r else RemoveAllAbsent(header, Scheme); r
  }

  /** Text without an occurrence is left as it is. */
  lemma {:induction false} RemoveAllAbsent(s: string, pat: string)
    requires pat != ""
    requires !Contains(s, pat)
    ensures RemoveAll(s, pat) == s
  {
    if s != [] {
      assert OccursAt(s, pat, 0) <==> pat <= s;
      assert !(pat <= s);
      forall i | 0 <= i <= |s[1..]| && OccursAt(s[1..], pat, i)
        ensures false
      {
        assert s[1..][i..] == s[i + 1..];
        assert OccursAt(s, pat, i + 1);
      }
      RemoveAllAbsent(s[1..], pat);
      assert s == [s[0]] + s[1..];
    }
  }

  /** Deletion works from the first occurrence: the text before it is kept as it is, the
      occurrence is dropped, and the rest is treated the same way. */
  lemma {:induction false} RemoveAllFirstOccurrence(s: string, pat: string, i: int)
    requires pat != ""
    requires 0 <= i <= |s| && OccursAt(s, pat, i)
    requires forall j :: 0 <= j < i ==> !OccursAt(s, pat, j)
    ensures i + |pat| <= |s|
    ensures RemoveAll(s, pat) == s[..i] + RemoveAll(s[i + |pat|..], pat)
  {
    if i == 0 {
      assert pat <= s;
    } else {
      assert !OccursAt(s, pat, 0);
      forall j | 0 <= j < i - 1
        ensures !OccursAt(s[1..], pat, j)
      {
        assert s[1..][j..] == s[j + 1..];
        assert !OccursAt(s, pat, j + 1);
      }
      assert s[1..][i - 1..] == s[i..];
      RemoveAllFirstOccurrence(s[1..], pat, i - 1);
      assert s[1..][i - 1 + |pat|..] == s[i + |pat|..];
      assert [s[0]] + s[1..][..i - 1] == s[..i];
    }
  }

  /** `Bearer <token>` yields `<token>` when the token itself holds no `Bearer `. */
  lemma StripBearerPrefix(token: string)
    requires !Contains(token, Scheme)
    ensures StripBearer(Scheme + token) == token
  {
    assert Scheme <= Scheme + token;
    assert (Scheme + token)[|Scheme|..] == token;
    RemoveAllAbsent(token, Scheme);
  }

  // ---------------------------------------------------------------- dispatch

  /** `_is_valid_token`: a header is present and its stripped token validates. */
  function TokenAccepted(s: Jwt.Signer, settings: AuthHandler.JwtSettings, authorization: Option<string>, now: int): (b: bool)
    ensures b <==> authorization.Some? &&
                   Jwt.Decode(s, settings.secretKey, settings.algorithm, StripBearer(authorization.value), now).Ok?
  {
    authorization.Some? && AuthHandler.IsValidToken(s, settings, StripBearer(authorization.value), now)
  }

  /** The four ways a request leaves the gate. */
  datatype Decision =
    | PassThrough               // allow-listed: forwarded, no token looked at
    | Unauthorized              // answered with the JSON 401
    | Attach(user: Claims)      // identity stored, then forwarded
    | Raise(error: Exception)   // the second decode raised

  /** What `dispatch` does with a request for `path` carrying `authorization`, validating
      at clock reading `validatedAt` and decoding the identity at `decodedAt`. */
  function Decide(allowed: seq<string>, s: Jwt.Signer, settings: AuthHandler.JwtSettings, path: string,
                  authorization: Option<string>, validatedAt: int, decodedAt: int): (d: Decision)
    ensures d == PassThrough <==> Allowed(allowed, path)
    ensures d == Unauthorized <==> !Allowed(allowed, path) && !TokenAccepted(s, settings, authorization, validatedAt)
    ensures d.Attach? ==>
              var token := StripBearer(authorization.value);
              AuthHandler.DecodeAccessToken(s, settings, token, decodedAt) == Ok(d.user) &&
              "token" in d.user && d.user["token"] == JStr(token)
    ensures !Allowed(allowed, path) && TokenAccepted(s, settings, authorization, validatedAt) ==>
              var token := StripBearer(authorization.value);
              var decoded := Jwt.Decode(s, settings.secretKey, settings.algorithm, token, decodedAt);
              && (decoded.Ok? ==> d == Attach(decoded.value["token" := JStr(token)]))
              && (decoded == Err(ExpiredSignatureError) ==> d == Raise(HttpException(401, "Token expired")))
              && (decoded.Err? && decoded != Err(ExpiredSignatureError) ==>
                    d == Raise(HttpException(401, "Invalid token")))
  {
    if Allowed(allowed, path) then PassThrough
    else if !TokenAccepted(s, settings, authorization, validatedAt) then Unauthorized
    else match AuthHandler.GetJwtUserFromToken(s, settings, StripBearer(authorization.value), decodedAt)
      case Ok(user) => Attach(user)
      case Err(e) => Raise(e)
  }

  /** The second decode can only fail because the token expired between the two clock
      readings; it then raises the 401 `Token expired` error instead of answering. */
  lemma RaiseOnlyOnExpiryInBetween(allowed: seq<string>, s: Jwt.Signer, settings: AuthHandler.JwtSettings, path: string,
                                   authorization: Option<string>, validatedAt: int, decodedAt: int)
    requires Decide(allowed, s, settings, path, authorization, validatedAt, decodedAt).Raise?
    ensures validatedAt < decodedAt
    ensures Decide(allowed, s, settings, path, authorization, validatedAt, decodedAt) ==
              Raise(HttpException(401, "Token expired"))
  {
    var token := StripBearer(authorization.value);
    if decodedAt <= validatedAt {
      Jwt.DecodeMonotone(s, settings.secretKey, settings.algorithm, token, decodedAt, validatedAt);
    } else {
      Jwt.DecodeMonotone(s, settings.secretKey, settings.algorithm, token, validatedAt, decodedAt);
    }
  }

  /** Read at one instant, the gate never raises: a validated token always yields an identity. */
  lemma OneInstantNeverRaises(allowed: seq<string>, s: Jwt.Signer, settings: AuthHandler.JwtSettings, path: string,
                              authorization: Option<string>, now: int)
    ensures !Decide(allowed, s, settings, path, authorization, now, now).Raise?
  {
    if Decide(allowed, s, settings, path, authorization, now, now).Raise? {
      RaiseOnlyOnExpiryInBetween(allowed, s, settings, path, authorization, now, now);
    }
  }

  /** End to end: a request for a protected path that presents `Bearer <token>` for a token
      issued by `create_access_token` gets the issued claims plus `token` attached while the
      token is unexpired, and the JSON 401 once it has expired. */
  lemma IssuedTokenPasses(allowed: seq<string>, s: Jwt.Signer, settings: AuthHandler.JwtSettings, path: string,
                          data: Claims, issued: int, validatedAt: int, decodedAt: int)
    requires Jwt.Lawful(s)
    requires !Allowed(allowed, path)
    requires !Contains(AuthHandler.AccessToken(s, settings, data, issued), Scheme)
    requires validatedAt <= decodedAt
    ensures var token := AuthHandler.AccessToken(s, settings, data, issued);
            var d := Decide(allowed, s, settings, path, Some(Scheme + token), validatedAt, decodedAt);
            && (decodedAt < AuthHandler.ExpiryOf(settings, issued) ==>
                  d == Attach(AuthHandler.IssuedClaims(settings, data, issued)["token" := JStr(token)]))
            && (AuthHandler.ExpiryOf(settings, issued) <= validatedAt ==> d == Unauthorized)
  {
    var token := AuthHandler.AccessToken(s, settings, data, issued);
    StripBearerPrefix(token);
    AuthHandler.IssueThenDecode(s, settings, data, issued, validatedAt);
    AuthHandler.IssueThenDecode(s, settings, data, issued, decodedAt);
  }

  // ---------------------------------------------------------------- the request object

  /** The response of a handler: a status and a JSON body. */
  datatype Response = Response(status: int, body: Json)

  /** The JSON 401 the gate answers with. */
  const UnauthorizedResponse: Response := Response(401, JObj([Member("detail", JStr("Unauthorized access"))]))

  /** What the next handler sees of the request. */
  datatype RequestView = RequestView(path: string, authorization: Option<string>, jwtUser: Option<Claims>)

  /** `call_next`: the rest of the application, as a function of the request it is given. */
  type Handler = RequestView -> Response

  /** An incoming request: its URL path and `Authorization` header are fixed, and
      `state.jwt_user` is set by the gate. */
  class Request {
    const path: string
    const authorization: Option<string>
    var jwtUser: Option<Claims>

    constructor (path: string, authorization: Option<string>)
      ensures this.path == path && this.authorization == authorization && jwtUser == None
    {
      this.path := path;
      this.authorization := authorization;
      jwtUser := None;
    }

    function View(): RequestView
      reads this
    {
      RequestView(path, authorization, jwtUser)
    }
  }

  /** `dispatch`: forwards allow-listed requests as they are, answers the JSON 401 without
      calling the next handler when the token is missing or invalid, and otherwise stores
      the decoded identity on the request and returns the next handler's response as is. */
  method Dispatch(allowed: seq<string>, s: Jwt.Signer, settings: AuthHandler.JwtSettings, request: Request,
                  next: Handler, validatedAt: int, decodedAt: int) returns (r: Result<Response, Exception>)
    modifies request
    ensures match Decide(allowed, s, settings, request.path, request.authorization, validatedAt, decodedAt)
            case PassThrough => request.jwtUser == old(request.jwtUser) && r == Ok(next(request.View()))
            case Unauthorized => request.jwtUser == old(request.jwtUser) && r == Ok(UnauthorizedResponse)
            case Attach(user) => request.jwtUser == Some(user) && r == Ok(next(request.View()))
            case Raise(e) => request.jwtUser == old(request.jwtUser) && r == Err(e)
  {
    var isAllowed := IsAllowedPath(allowed, request.path);
    if isAllowed {
      return Ok(next(request.View()));
    }
    var token := request.authorization;
    if !(token.Some? && AuthHandler.IsValidToken(s, settings, StripBearer(token.value), validatedAt)) {
      return Ok(UnauthorizedResponse);
    }
    var user := AuthHandler.GetJwtUserFromToken(s, settings, StripBearer(token.value), decodedAt);
    if user.Err? {
      return Err(user.error);
    }
    request.jwtUser := Some(user.value);
    var response := next(request.View());
    return Ok(response);
  }
}
