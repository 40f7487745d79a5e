/** The stored user record (app/entity/user_entity.py) and the user store the core
    consults. Persistence is foreign: the store is a lookup by username. */
module Users {
  import opened Wrappers
  import opened Json

  /** `User`: every field the entity declares. Optional fields are `None` when unset;
      dates are integer timestamps. */
  datatype User = User(
    userId: Option<string>,
    username: string,
    firstName: string,
    lastName: string,
    email: string,
    hashedPassword: Option<string>,
    isActive: Option<bool>,
    roles: Option<seq<string>>,
    createdBy: Option<string>,
    createdDate: Option<int>,
    lastUpdatedBy: Option<string>,
    lastUpdatedDate: Option<int>,
    age: Option<int>)

  /** `retrieve_by_username`: the record stored under a username, if any. */
  type UserStore = string -> Option<User>

  /** The password check of passlib's `CryptContext.verify(plain, hashed)`; it is handed
      the stored hash as it is, `None` included. */
  type PasswordVerifier = (string, Option<string>) -> bool

  /** A `str | None` field as it appears in a JSON payload. */
  function StrOrNull(o: Option<string>): (j: Json)
    ensures o.None? <==> j == JNull
    ensures o.Some? ==> j == JStr(o.value)
  {
    match o
    case None => JNull
    case Some(v) => JStr(v)
  }

  /** The `roles` field as it appears in a JSON payload: a list of strings, or `null`. */
  function RolesJson(roles: Option<seq<string>>): (j: Json)
    ensures roles.None? <==> j == JNull
    ensures roles.Some? ==> j.JArr? && |j.items| == |roles.value| &&
                            forall i :: 0 <= i < |roles.value| ==> j.items[i] == JStr(roles.value[i])
  {
    match roles
    case None => JNull
    case Some(rs) => JArr(seq(|rs|, i requires 0 <= i < |rs| => JStr(rs[i])))
  }
}
