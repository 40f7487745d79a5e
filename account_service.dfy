/** Account reading and password change rules (app/service/account_service.py). The
    user service is a collaborator: its lookup and its password change are parameters. */
module AccountService {
  import opened Wrappers
  import opened Errors
  import opened Users

  /** `get_account`: the stored user when the username is non-empty, the user exists and
      `is_active` is true; `None` otherwise (an `is_active` of `None` counts as inactive). */
  function GetAccount(store: UserStore, username: Option<string>): (r: Option<User>)
    ensures r.Some? <==>
              username.Some? && username.value != "" && store(username.value).Some? &&
              store(username.value).value.isActive == Some(true)
    ensures r.Some? ==> r.value == store(username.value).value
  {
    if username.None? || username.value == "" then None
    else match store(username.value)
      case None => None
      case Some(result) => if result.isActive != Some(true) then None else Some(result)
  }

  /** An empty or missing username is answered without consulting the store. */
  lemma GetAccountNoLookup(s1: UserStore, s2: UserStore, username: Option<string>)
    requires username.None? || username.value == ""
    ensures GetAccount(s1, username) == GetAccount(s2, username) == None
  {
  }

  /** `ChangePasswordVM`. */
  datatype ChangePasswordVM = ChangePasswordVM(currentPassword: string, newPassword: string)

  /** One call `user_service.change_password(username, current, new)`. */
  datatype PasswordChange = PasswordChange(username: string, currentPassword: string, newPassword: string)

  /** The user service's password change: `None` when it returns, or what it raises. */
  type ChangeService = PasswordChange -> Option<Exception>

  /** What `change_password` returns or raises, and the calls it made to the user service. */
  datatype ChangeOutcome = ChangeOutcome(result: Result<bool, Exception>, calls: seq<PasswordChange>)

  /** `change_password`: `NOT_FOUND` for a `None` username, then `INVALID_PAYLOAD` when
      the new password equals the current one; otherwise one delegation and `True`. */
  function ChangePassword(service: ChangeService, username: Option<string>, vm: ChangePasswordVM)
    : (r: ChangeOutcome)
    ensures username.None? ==>
              r == ChangeOutcome(Err(BusinessException(NOT_FOUND, "User not found")), [])
    ensures username.Some? && vm.currentPassword == vm.newPassword ==>
              r == ChangeOutcome(Err(BusinessException(INVALID_PAYLOAD,
                     "New password cannot be the same as the current password")), [])
    ensures username.Some? && vm.currentPassword != vm.newPassword ==>
              var call := PasswordChange(username.value, vm.currentPassword, vm.newPassword);
              && r.calls == [call]
              && r.result == (if service(call).Some? then Err(service(call).value) else Ok(true))
    ensures r.result.Ok? ==> r.result.value
  {
    if username.None? then
      ChangeOutcome(Err(BusinessException(NOT_FOUND, "User not found")), [])
    else if vm.currentPassword == vm.newPassword then
      ChangeOutcome(Err(BusinessException(INVALID_PAYLOAD, "New password cannot be the same as the current password")), [])
    else
      var call := PasswordChange(username.value, vm.currentPassword, vm.newPassword);
      match service(call)
      case Some(e) => ChangeOutcome(Err(e), [call])
      case None => ChangeOutcome(Ok(true), [call])
  }

  /** Only a `None` username is refused as not found: the empty string reaches the next
      check, and a guard failure never reaches the user service. */
  lemma EmptyUsernamePasses(service: ChangeService, vm: ChangePasswordVM)
    requires vm.currentPassword != vm.newPassword
    ensures ChangePassword(service, Some(""), vm).calls == [PasswordChange("", vm.currentPassword, vm.newPassword)]
  {
  }
}
