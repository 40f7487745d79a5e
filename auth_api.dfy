/** The `authenticate` route (app/api/auth_api.py): a username/password login answered
    with a plain response value. The user lookup and the password check are parameters. */
module AuthApi {
  import opened Wrappers
  import opened Users
  import AuthConfig
  import Jwt

  /** `LoginVM`. */
  datatype LoginVM = LoginVM(username: string, password: string)

  /** The response dict: `success`, `message`, and `data` only on success. */
  datatype LoginResponse = LoginResponse(success: bool, message: string, data: Option<map<string, string>>)

  /** The one response both kinds of failure produce. */
  const Refusal: LoginResponse := LoginResponse(false, "Incorrect email or password", None)

  /** `authenticate`: the signed token response when the user exists and the password
      verifies, and the same refusal otherwise; failures are returned, not raised. */
  function Authenticate(store: UserStore, verify: PasswordVerifier, s: Jwt.Signer, settings: AuthConfig.AuthSettings,
                        login: LoginVM, now: int): (r: LoginResponse)
    ensures r.success <==>
              store(login.username).Some? && verify(login.password, store(login.username).value.hashedPassword)
    ensures !r.success ==> r == Refusal
    ensures r.success ==>
              r == LoginResponse(true, "User authenticated successfully",
                                 Some(AuthConfig.SignJwt(s, settings, store(login.username).value, now)))
  {
    match store(login.username)
    case None => Refusal
    case Some(user) =>
      if !verify(login.password, user.hashedPassword) then Refusal
      else LoginResponse(true, "User authenticated successfully", Some(AuthConfig.SignJwt(s, settings, user, now)))
  }

  /** The response does not reveal which check failed: an unknown user and a wrong password
      for a known one get equal responses. */
  lemma NoEnumeration(store: UserStore, verify: PasswordVerifier, s: Jwt.Signer, settings: AuthConfig.AuthSettings,
                      unknown: LoginVM, wrong: LoginVM, now: int)
    requires store(unknown.username).None?
    requires store(wrong.username).Some? && !verify(wrong.password, store(wrong.username).value.hashedPassword)
    ensures Authenticate(store, verify, s, settings, unknown, now) == Authenticate(store, verify, s, settings, wrong, now)
  {
  }

  /** A successful login hands out a token that decodes to the user's payload until
      `now + 2400` inclusive. */
  lemma LoginTokenDecodes(store: UserStore, verify: PasswordVerifier, s: Jwt.Signer, settings: AuthConfig.AuthSettings,
                          login: LoginVM, issued: int, now: int)
    requires Jwt.Lawful(s)
    requires Authenticate(store, verify, s, settings, login, issued).success
    requires now <= issued + AuthConfig.Lifetime
    ensures var token := Authenticate(store, verify, s, settings, login, issued).data.value["access_token"];
            AuthConfig.DecodeJwt(s, settings, token, now) ==
              Ok(AuthConfig.SignPayload(store(login.username).value, issued))
  {
    AuthConfig.SignThenDecode(s, settings, store(login.username).value, issued, now);
  }
}
