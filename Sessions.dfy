/**
 * The server-side session: a map from keys to strings that controllers read
 * with `GetString` (null when the key is absent), write with `SetString` and
 * empty with `Clear`.
 */
module Sessions {
  import opened Wrappers
  import opened Models
  import opened Text

  const UserIdKey: string := "UserId"
  const UsernameKey: string := "Username"
  const UserRoleKey: string := "UserRole"
  const UserFullNameKey: string := "UserFullName"
  const UserEmailKey: string := "UserEmail"

  class Session {
    var values: map<string, string>

    constructor ()
      ensures values == map[]
    {
      values := map[];
    }

    method SetString(key: string, value: string)
      modifies this
      ensures values == old(values)[key := value]
    {
      values := values[key := value];
    }

    method Clear()
      modifies this
      ensures values == map[]
    {
      values := map[];
    }
  }

  /** `Session.GetString(key)`. */
  function GetString(values: map<string, string>, key: string): Option<string>
  {
    if key in values then Some(values[key]) else None
  }

  /** `string.IsNullOrEmpty`. */
  predicate IsNullOrEmpty(s: Option<string>)
  {
    s.None? || s.value == ""
  }

  /** The test every shop action starts with: a non-empty `UserId` is in the session. */
  predicate LoggedIn(values: map<string, string>)
  {
    !IsNullOrEmpty(GetString(values, UserIdKey))
  }

  /** A stored `UserId` is decimal text, so that `int.Parse` of it succeeds. */
  predicate WellFormed(values: map<string, string>)
  {
    UserIdKey in values ==> AllDigits(values[UserIdKey])
  }

  /** The signed-in user's id, `int.Parse` of the `UserId` entry, when one is present. */
  function CurrentUserId(values: map<string, string>): (r: Option<nat>)
    requires WellFormed(values)
    ensures r.Some? <==> LoggedIn(values)
  {
    if LoggedIn(values) then Some(ParseNat(values[UserIdKey])) else None
  }

  /** The role gate of every admin action: the `UserRole` entry is present, non-empty and exactly "Admin". */
  predicate IsAdminSession(values: map<string, string>)
  {
    var role := GetString(values, UserRoleKey);
    !(IsNullOrEmpty(role) || role.value != RoleAdmin)
  }

  /** The gate's emptiness test is subsumed by the equality test: only the exact string "Admin" passes. */
  lemma AdminGateIsExactMatch(values: map<string, string>)
    ensures IsAdminSession(values) <==> UserRoleKey in values && values[UserRoleKey] == RoleAdmin
  {
  }
}
