/** Credential verification and token issue for a user (app/security/auth_service.py).
    The repository lookup and passlib's password check are parameters. */
module AuthService {
  import opened Wrappers
  import opened Json
  import opened Users
  import AuthHandler
  import Jwt

  /** What `authenticate_user` returns: `False`, or the stored user record. */
  datatype Authentication = Rejected | Authenticated(user: User)

  /** `authenticate_user`: the user stored under `username` when the password verifies
      against its stored hash; `False` for an unknown user and for a wrong password alike. */
  function AuthenticateUser(store: UserStore, verify: PasswordVerifier, username: string, password: string)
    : (r: Authentication)
    ensures r.Authenticated? <==>
              store(username).Some? && verify(password, store(username).value.hashedPassword)
    ensures r.Authenticated? ==> r.user == store(username).value
  {
    match store(username)
    case None => Rejected
    case Some(user) =>
      if !verify(password, user.hashedPassword) then Rejected
      else Authenticated(user)
  }

  /** The password enters only through `verify`: two verifiers that agree on this password
      and the stored hash give the same outcome, so no plain comparison is made. */
  lemma OnlyVerifierDecides(store: UserStore, v1: PasswordVerifier, v2: PasswordVerifier, username: string, password: string)
    requires store(username).Some? ==>
               v1(password, store(username).value.hashedPassword) == v2(password, store(username).value.hashedPassword)
    ensures AuthenticateUser(store, v1, username, password) == AuthenticateUser(store, v2, username, password)
  {
  }

  /** The claims `create_access_token_for_user` hands to `create_access_token`. */
  function UserClaims(user: User): (r: Claims)
    ensures r.Keys == {"sub", "scopes", "user_id", "email"}
    ensures r["sub"] == JStr(user.username)
    ensures r["scopes"] == RolesJson(user.roles)
    ensures r["user_id"] == StrOrNull(user.userId)
    ensures r["email"] == JStr(user.email)
  {
    map["sub" := JStr(user.username), "scopes" := RolesJson(user.roles),
        "user_id" := StrOrNull(user.userId), "email" := JStr(user.email)]
  }

  /** `create_access_token_for_user`: the access token issued for the user's claims. */
  method CreateAccessTokenForUser(s: Jwt.Signer, settings: AuthHandler.JwtSettings, user: User, now: int)
    returns (token: string)
    ensures token == AuthHandler.AccessToken(s, settings, UserClaims(user), now)
  {
    var data := new Dict(UserClaims(user));
    token := AuthHandler.CreateAccessToken(s, settings, data, now);
  }

  /** A user's token, decoded before its expiry, names that user: its subject is the
      username and it carries the user's roles, id and email. */
  lemma UserTokenIdentity(s: Jwt.Signer, settings: AuthHandler.JwtSettings, user: User, issued: int, now: int)
    requires Jwt.Lawful(s)
    requires now < AuthHandler.ExpiryOf(settings, issued)
    ensures var r := AuthHandler.GetTokenUser(s, settings, AuthHandler.AccessToken(s, settings, UserClaims(user), issued), now);
            && r.Ok?
            && r.value.Keys == {"sub", "scopes", "user_id", "email", "exp", "token"}
            && r.value["sub"] == JStr(user.username)
            && r.value["scopes"] == RolesJson(user.roles)
            && r.value["user_id"] == StrOrNull(user.userId)
            && r.value["email"] == JStr(user.email)
            && r.value["exp"] == JInt(AuthHandler.ExpiryOf(settings, issued))
  {
    AuthHandler.IssueThenDecode(s, settings, UserClaims(user), issued, now);
  }
}
