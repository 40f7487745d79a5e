# Authentication and authorisation core of a FastAPI user service, in Dafny

This project models the authentication and authorisation path of a FastAPI/MongoDB
backend that serves user, account and login endpoints. It also models two small
utilities that the path shares with the list endpoints. The model covers:

- **The request gate** (`SecurityMiddleware`). An allow-listed path is forwarded as it
  is. Any other request needs an `Authorization` header. Every `Bearer ` is deleted from
  the header, and the rest must decode as a valid token. Otherwise the gate answers
  `401 {"detail": "Unauthorized access"}`. On success the decoded identity is stored on
  the request before the next handler runs.
- **Two generations of bearer tokens.**
  - `AuthHandler` uses the `exp` claim of RFC 7519, section 4.1.4. The expiry is
    `now + EXPIRATION` minutes and replaces any `exp` the caller supplied. Decoding adds
    the raw token under `token`. An expired token and an invalid token raise different
    401 errors.
  - `AuthConfig` uses a custom `expires` claim, `now + 2400` seconds, and always signs
    with HS256 (section 3.2 of RFC 7518). `expires >= now` is still valid.
    `JWTBearer` adds three 403 checks.
- **Credential checks.** `AuthService.authenticate_user` and the `authenticate` route look
  the user up by username and check the password through the hasher's verify operation.
  An unknown user and a wrong password get identical results.
- **Account rules** (`AccountService`), with the `ErrorCodes` enumeration.
- **The query-operator allow-list** of `QueryParams`, and its field constraints.
- **The pagination headers** built from a `PageResponse`.

Foreign code is passed in as parameters:

- **The JWT library's signature layer** is a `Jwt.Signer`. Its single law, `Jwt.Lawful`,
  says that a token signed with a key and algorithm verifies with the same key and
  algorithm. The model checks the `exp` claim itself.
- **The user store** is a lookup by username.
- **passlib's password check** is a `verify(plain, hash)` function.
- **`json.loads`** is a function from text to a parsed JSON tree.
- **Starlette's `call_next`** is a function from the request to a response.

Every instant is an integer number of seconds, passed in as a parameter. The middleware
reads the clock twice: once to validate the token and once to decode the identity. The
model therefore takes two instants. If the token expires between the two readings, the
second decode raises the 401 `Token expired` error. The gate never returns its JSON 401
in that case.

Three behaviours of the code are worth stating outright:

- The settings docstring describes `EXPIRATION` as seconds (app/conf/jwt_config.py:15-16).
  `create_access_token` applies it as minutes (app/security/auth_handler.py:20), and the
  model follows that.
- The `authenticate` route returns a failed login as the ordinary value
  `{"success": False, "message": ...}`. A successful login returns the `sign_jwt` body,
  `{"access_token": ...}`, as its data.
- The `authenticate` route issues its tokens with `sign_jwt`. That function ignores the
  configured algorithm and always signs with HS256.

## Model

| member | source | states |
|---|---|---|
| `Errors.CodeValueInjective` | app/errors/business_exception.py:4-18 | each of the eleven error codes carries a distinct string value |
| `Json.Dict.Copy` | app/security/auth_handler.py:19 | `dict.copy()` yields a fresh object with the same entries |
| `Json.Dict.Update` | app/security/auth_handler.py:21 | `dict.update` adds or overwrites the given keys and keeps every other entry |
| `Jwt.Decode` | app/security/auth_handler.py:27 | the signature is checked first, then `exp`; the result is expired exactly when a verified payload has an integer `exp <= now`, and is accepted exactly when it verifies and is unexpired |
| `Jwt.RoundTrip` | app/security/auth_handler.py:18-29 | a payload signed and then verified with the same key and algorithm decodes to itself before its `exp` |
| `Jwt.ExpiredAfter` | app/security/auth_handler.py:30-31 | the same token decoded at or after `exp` gives the expired error, not the invalid one |
| `Jwt.RoundTripNoExp` | app/security/auth_config.py:23-28 | a payload without `exp` decodes to itself at any instant |
| `Jwt.DecodeMonotone` | app/security/auth_handler.py:25-33 | a token accepted later was accepted earlier with the same claims; expired stays expired; invalidity does not depend on the clock |
| `AuthHandler.IssuedClaims` | app/security/auth_handler.py:19-21 | the issued claims are the caller's keys plus `exp`; `exp` is `now + 60 * EXPIRATION` whatever the caller gave; every other entry is kept |
| `AuthHandler.CreateAccessToken` | app/security/auth_handler.py:18-22 | the caller's dict is left unchanged; the token signs the caller's claims with `exp` set to the issue time plus the lifetime |
| `AuthHandler.DecodeAccessToken` | app/security/auth_handler.py:25-33 | success returns the verified payload with `token` set to the input string; expired gives 401 `Token expired`; any other failure gives 401 `Invalid token` |
| `AuthHandler.IsValidToken` | app/security/auth_handler.py:36-41 | true exactly when decoding raises nothing |
| `AuthHandler.GetTokenUser` | app/security/auth_handler.py:44-50 | returns exactly the verified payload with `token` added, when the token is valid; otherwise 401 `Token expired` exactly for an expired token, and 401 `Invalid token` for every other failure |
| `AuthHandler.GetJwtUserFromToken` | app/security/auth_handler.py:53-60 | the identity's keys are the verified payload's keys plus `token`, each payload entry is kept and `token` is the raw token; failures are 401 `Token expired` exactly for an expired token, 401 `Invalid token` otherwise |
| `AuthHandler.IssueThenDecode` | app/security/auth_handler.py:18-33 | before its expiry, an issued token decodes to the issued claims plus `token`; from the expiry instant on, it gives 401 `Token expired` |
| `AuthHandler.IssuedTokenValidity` | app/security/auth_handler.py:36-41 | an issued token is valid exactly while `now < issued + 60 * EXPIRATION`; a non-positive `EXPIRATION` makes it invalid at issue |
| `AuthHandler.CallerExpIgnored` | app/security/auth_handler.py:20-21 | claim sets that differ only in a caller-supplied `exp` are issued with the same claims, so their tokens decode to the same identity; as unordered claim maps they also give the same token |
| `AuthConfig.TokenResponse` | app/security/auth_config.py:17-18 | the body has exactly the key `access_token`, holding the token |
| `AuthConfig.SignPayload` | app/security/auth_config.py:23 | the payload has exactly `username`, `roles` and `expires = now + 2400` |
| `AuthConfig.SignJwt` | app/security/auth_config.py:21-24 | the result is `{"access_token": t}`, where `t` signs the payload with HS256 |
| `AuthConfig.AsNumber` | app/security/auth_config.py:29 | an `expires` can be compared only when it is an integer, compared as its value, or a boolean, compared as 1 for true and 0 for false |
| `AuthConfig.DecodeJwt` | app/security/auth_config.py:27-29 | library errors propagate; a missing `expires` raises `KeyError`; the result is a non-empty payload exactly when the token verifies with HS256 and `expires >= now`; a numeric `expires` before `now` gives `{}`; a non-numeric `expires` raises `TypeError` |
| `AuthConfig.VerifyJwt` | app/security/auth_config.py:32-38 | true exactly when the token verifies and is unexpired; false exactly when decoding gives `{}`; decoding errors propagate |
| `AuthConfig.JwtBearerCall` | app/security/auth_config.py:45-61 | no credentials give 403 `Invalid authorization token`; a scheme other than `Bearer` gives 403 `Invalid authentication token`; a failed verification gives 403 `Invalid token or expired token`; success returns the raw credential string |
| `AuthConfig.SignThenDecode` | app/security/auth_config.py:21-29 | a signed token decodes to its payload until `issued + 2400` inclusive, and to `{}` after that |
| `AuthConfig.AlgorithmIgnored` | app/security/auth_config.py:12-28 | the configured algorithm changes neither signing nor decoding |
| `AuthConfig.ExpTokenHasNoExpires` | app/security/auth_config.py:29 | an unexpired token of the `exp` generation without `expires` makes this decoder raise `KeyError` |
| `AuthService.AuthenticateUser` | app/security/auth_service.py:23-29 | the stored record is returned unchanged exactly when the user exists and `verify` accepts the password against its stored hash; otherwise `False` |
| `AuthService.OnlyVerifierDecides` | app/security/auth_service.py:17-18 | the outcome depends on the password only through `verify(plain, hash)` |
| `AuthService.UserClaims` | app/security/auth_service.py:8 | the claims are exactly `sub = username`, `scopes = roles`, `user_id` and `email` |
| `AuthService.CreateAccessTokenForUser` | app/security/auth_service.py:7-9 | the user's claims are handed to `create_access_token` |
| `AuthService.UserTokenIdentity` | app/security/auth_service.py:7-9 | a user's token, decoded before expiry, carries exactly that user's subject, scopes, id, email and the computed `exp`, plus `token` |
| `AuthApi.Authenticate` | app/api/auth_api.py:14-27 | success, with message and `data = sign_jwt(user)`, exactly when the user exists and the password verifies; every failure is the same `Incorrect email or password` value |
| `AuthApi.NoEnumeration` | app/api/auth_api.py:17-23 | an unknown user and a wrong password get equal responses |
| `AuthApi.LoginTokenDecodes` | app/api/auth_api.py:25-27 | the token of a successful login decodes to the user's payload until `issued + 2400` inclusive |
| `AccountService.GetAccount` | app/service/account_service.py:16-29 | the stored user, unchanged, exactly when the username is non-empty, the user exists and `is_active` is true; `None` otherwise, including `is_active = None` |
| `AccountService.GetAccountNoLookup` | app/service/account_service.py:18-20 | an empty or missing username gives `None` whatever the store holds |
| `AccountService.ChangePassword` | app/service/account_service.py:31-44 | a `None` username raises `NOT_FOUND`; then equal passwords raise `INVALID_PAYLOAD`; neither calls the user service; otherwise exactly one call with these arguments is made, then `True` is returned or the service's exception passes through |
| `AccountService.EmptyUsernamePasses` | app/service/account_service.py:34-41 | an empty username is not refused as not found, and it reaches the user service |
| `SecurityMiddleware.IsAllowedPath` | app/middleware/security_middleware.py:26-34 | the loop returns true exactly when some allow-list entry matches the path |
| `SecurityMiddleware.StarMatchesStem` | app/middleware/security_middleware.py:30 | a starred entry matches exactly the paths that start with the entry minus its star |
| `SecurityMiddleware.PlainMatchesOnlyItself` | app/middleware/security_middleware.py:32-33 | an entry without a star matches only the identical path |
| `SecurityMiddleware.EmptyAllowListAllowsNothing` | app/middleware/security_middleware.py:29-34 | an empty allow-list admits no path |
| `SecurityMiddleware.HealthExamples` | app/middleware/security_middleware.py:30-33 | `/health*` admits `/health`, `/health/live` and `/healthz`; `/health` admits only itself; neither admits `/other` |
| `SecurityMiddleware.RemoveAll` | app/middleware/security_middleware.py:39 | deleting occurrences never lengthens the text |
| `SecurityMiddleware.RemoveAllFirstOccurrence` | app/middleware/security_middleware.py:39 | like `str.replace` with an empty replacement: the text before the first occurrence is kept, the occurrence is dropped, and the rest is handled the same way |
| `SecurityMiddleware.StripBearer` | app/middleware/security_middleware.py:39 | the token handed on is never longer than the header, and a header without `Bearer ` is handed on as it is |
| `SecurityMiddleware.TokenAccepted` | app/middleware/security_middleware.py:36-39 | a header is accepted exactly when it is present and its stripped token decodes: it verifies and has not expired |
| `SecurityMiddleware.RemoveAllAbsent` | app/middleware/security_middleware.py:39 | a header without `Bearer ` reaches the validator unchanged |
| `SecurityMiddleware.StripBearerPrefix` | app/middleware/security_middleware.py:44 | `Bearer <token>` yields `<token>` when the token holds no `Bearer ` |
| `SecurityMiddleware.Decide` | app/middleware/security_middleware.py:14-24 | pass-through exactly on an allow-listed path; the JSON 401 exactly when the path is protected and the header is missing or its token is invalid; otherwise the second decode decides: a verified, unexpired payload is attached with `token` set to the stripped token, expiry raises 401 `Token expired`, and any other failure raises 401 `Invalid token` |
| `SecurityMiddleware.RaiseOnlyOnExpiryInBetween` | app/middleware/security_middleware.py:19-22 | the second decode fails only when the clock advanced between the readings, and it then raises 401 `Token expired` |
| `SecurityMiddleware.OneInstantNeverRaises` | app/middleware/security_middleware.py:19-22 | with both readings at one instant, a validated token always yields an identity |
| `SecurityMiddleware.IssuedTokenPasses` | app/middleware/security_middleware.py:18-24 | `Bearer <issued token>` on a protected path attaches the issued claims plus `token` before expiry, and gets the JSON 401 once expired |
| `SecurityMiddleware.Dispatch` | app/middleware/security_middleware.py:14-24 | allow-listed requests and valid ones go to the next handler, whose response is returned as is; the identity is stored on the request before that; rejected requests get the JSON 401 without the next handler and with the request untouched |
| `QueryParams.FirstForbidden` | app/conf/query_params.py:101 | no key is reported exactly when none is forbidden; a reported key is forbidden and occurs among the keys |
| `QueryParams.CheckObject` | app/conf/query_params.py:99-102 | a reported key is always a forbidden operator |
| `QueryParams.CheckValue` | app/conf/query_params.py:103-108 | a reported key is forbidden; a value that is neither a dict nor a list is not looked into |
| `QueryParams.CheckItems` | app/conf/query_params.py:105-108 | a reported key is forbidden; a list without dict items reports nothing |
| `QueryParams.CheckObjectIsFirstForbidden` | app/conf/query_params.py:99-108 | the traversal reports exactly the first forbidden key in depth-first inspection order |
| `QueryParams.CheckValueIsFirstForbidden` | app/conf/query_params.py:103-108 | a value is searched exactly through the dicts it inspects |
| `QueryParams.CheckItemsIsFirstForbidden` | app/conf/query_params.py:105-108 | a list is searched exactly through its dict items |
| `QueryParams.CheckObjectSpec` | app/conf/query_params.py:99-108 | a dict passes exactly when no inspected key is forbidden; a rejected key starts with `$`, is not one of the eleven operators, and was inspected |
| `QueryParams.TopLevelForbiddenRejected` | app/conf/query_params.py:100-102 | a forbidden key directly in the dict always causes a rejection |
| `QueryParams.NestingExamples` | app/conf/query_params.py:103-108 | operators in dict values and in dicts directly in a list are caught, but a dict in a list inside a list is not |
| `QueryParams.ValidateQuery` | app/conf/query_params.py:86-111 | an empty or absent `q` gives `None`; non-JSON raises; a non-object raises `AttributeError`; the first forbidden operator `k` among the inspected keys raises 400 `Unauthorized query operator: k`; a non-empty `q` is accepted exactly when it is an object whose inspected keys are all allowed, and it is then returned unchanged |
| `QueryParams.DocumentedExamplesPass` | app/conf/query_params.py:40-46 | every documented example filter passes |
| `QueryParams.MakeQueryParams` | app/conf/query_params.py:68-111 | construction succeeds exactly when `q` has 3 to 1000 characters (or is absent), `page >= 0` and the validator accepts; the fields are then the inputs, with `q` replaced by the validator's result; an exception of the validator other than invalid JSON (the 400 for a forbidden operator, `AttributeError`) leaves construction as it is; otherwise a failure is one `ValidationError` naming `q` when its length is out of bounds or it is not JSON, and `page` when it is negative, in that order |
| `QueryParams.DefaultsAreValid` | app/conf/query_params.py:68-73 | the defaults are page 0, limit 10, sort `+_id`, no filter, and construction from them succeeds |
| `HeaderUtils.NatToDecimal` | app/utils/header_utils.py:12-14 | `str` of a natural number is a run of digits without a leading zero, and begins with `0` only for zero |
| `HeaderUtils.IntToDecimal` | app/utils/header_utils.py:12-14 | `str` of a negative number is `-` followed by digits, the first of which is not `0` |
| `HeaderUtils.NatToDecimalRoundTrip` | app/utils/header_utils.py:12-14 | the digits of `str(n)` have the value `n` |
| `HeaderUtils.IntToDecimalRoundTrip` | app/utils/header_utils.py:12-14 | `int(str(n)) == n` for every integer |
| `HeaderUtils.CreateListHeader` | app/utils/header_utils.py:4-15 | exactly the keys `X-Page`, `X-Size` and `X-Total-Count`, with the decimal text of `page`, `size` and `total` |
| `HeaderUtils.HeadersRoundTrip` | app/utils/header_utils.py:11-15 | parsing each header gives back its field |
| `HeaderUtils.HeadersDependOnPositionOnly` | app/conf/page_response.py:6-16 | two pages have equal headers exactly when page, size and total agree; `content` has no influence |

## Left out

- Signing and signature checking (HMAC-SHA256, base64url, JSON serialisation) are foreign library code. They are the `Jwt.Signer` parameter, constrained only by `Jwt.Lawful`. The model therefore does not show that a tampered token fails to verify.
- The JWT library also checks `nbf`, `iat`, `aud` and `iss` claims. `Jwt.Decode` does not check them. `AuthHandler.AccessToken`, `AuthHandler.IssueThenDecode`, `AuthHandler.IssuedTokenValidity`, `SecurityMiddleware.IssuedTokenPasses` and `Jwt.RoundTrip` are stated for every claim set. That includes claim sets the library rejects, which the source then answers with 401 `Invalid token`: a non-empty `aud` when no audience is expected, or an `nbf` or `iat` in the future.
- Jwt.Decode: only an integer `exp` is accepted, and every other `exp` is invalid. The library converts `exp` with `int()` instead. A string holding an integer literal (a sign, surrounding spaces and underscores allowed), or a float, is then accepted as its integer value, and a boolean reads as 0 or 1. `null`, a list or an object raise a `TypeError` that escapes `_decode_access_token` unhandled. None of these cases is modelled.
- AuthHandler.CreateAccessToken: `jwt.encode` raises `NotImplementedError` for an algorithm name the library does not know, and `InvalidKeyError` for `none` or an RSA or EC algorithm given the plain-string secret. The model issues a token for every algorithm name. `AuthHandler.AccessToken`, `AuthService.CreateAccessTokenForUser` and the lemmas about issued tokens are therefore stated for every configured algorithm; in the source they hold only for the HMAC algorithms `HS256`, `HS384` and `HS512`.
- `Jwt.Lawful` ties verification to the same key and algorithm. Whether a key or algorithm mismatch is rejected is left to the library.
- Password hashing (`hash_password`, bcrypt through passlib) is foreign code, and salting is not modelled. The verify operation is a parameter, and it receives the stored hash as it is, `None` included.
- The user store, the user service and the repository are Beanie/MongoDB code. Lookup is a parameter. `UserService.change_password` is a parameter that returns normally or raises. Its effect on the store is not modelled.
- `time.time()` returns a float. Every clock reading here is an integer number of seconds. Microsecond truncation of `datetime` is not modelled.
- `call_next` is a synchronous function of the request. Async scheduling and concurrency are not modelled.
- Starlette looks up the `Authorization` header case-insensitively and picks the first of several. The model takes the header's value, or its absence, as given.
- AuthHandler.GetJwtUserFromToken: `JWTUser`, built from the decoded payload, is not part of this model. The identity stored on the request is the decoded claim map itself, so a payload that `JWTUser` would reject is not modelled as an error.
- `HTTPBearer` parses the header before `JWTBearer.__call__` runs. That parsing is not modelled: its result, present credentials or none, is an input. With the default `auto_error=True`, `HTTPBearer` itself answers a missing header with 403 `Not authenticated`, and answers a scheme that is not `bearer` in any letter case with 403. `Invalid authorization token` is therefore reached only with `auto_error=False`. `Invalid authentication token` is reached only for a case variant of `Bearer`, such as `bearer`. The `print` call is not modelled.
- AuthHandler.ExpiryOf: `datetime + timedelta(minutes=EXPIRATION)` raises `OverflowError` when the expiry falls outside years 1 to 9999. Counted from the present, that happens for an `EXPIRATION` above about 4.2e9 minutes, or below about -1.07e9 minutes. The model issues a token for every `EXPIRATION`, and `AuthHandler.IssuedTokenValidity` is stated for every `EXPIRATION` too.
- AuthHandler.CallerExpIgnored: claim sets are unordered maps. `dict.update` keeps a caller's `exp` at its original position, and the library serialises the payload in dict order. So in the source, data with an `exp` before its other keys signs different text from the same data without it. Token text that depends on key order is not modelled; only the issued claims are equal.
- HeaderUtils.IntToDecimal: CPython's `str()` raises `ValueError` for an integer of more than 4300 digits, its default conversion limit. The model converts every integer, so `HeaderUtils.CreateListHeader` never fails.
- `SecurityMiddleware.Dispatch` returns a raised exception as a value. Starlette then turns it into an error response, and that step is not modelled.
- The `json.loads` parser is a parameter. Parsed JSON has no floating-point numbers. A parsed object's keys are taken to be distinct, as Python's dict makes them.
- `QueryParams.MakeQueryParams` names only the failing fields in a `ValidationError`. pydantic's messages and error types are not modelled.
- `HeaderUtils.ParseInt` accepts only an optional `-` followed by digits. It does not model the other text Python's `int()` accepts: signs, spaces, underscores.
- Settings (secret, algorithm, `EXPIRATION`, allowed paths) are immutable parameters. Loading them from the environment is not modelled.
- Logging calls are not modelled.
