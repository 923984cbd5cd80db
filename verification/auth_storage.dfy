/** The stored-user helpers (frontend/src/utils/auth.js) over the browser's
    key/value storage. */
module AuthStorage {
  import opened Wrappers
  import opened Schema

  /** `localStorage`: string keys to string values. */
  type Storage = map<string, string>

  const UserKey: string := "user"
  const RoleKey: string := "userRole"

  /** `localStorage.getItem(key)`: the value, or null when the key is absent. */
  function GetItem(st: Storage, key: string): (r: Option<string>)
    ensures r.Some? <==> key in st
    ensures r.Some? ==> r.value == st[key]
  {
    if key in st then Some(st[key]) else None
  }

  /** `getStoredUser`: null for an absent or empty entry, otherwise the parse of
      the stored text. `parse` stands for `JSON.parse` and answers None when it
      throws or yields a value that is not a user object. */
  function GetStoredUser(st: Storage, parse: string -> Option<UserView>): (r: Option<UserView>)
    ensures UserKey !in st || st[UserKey] == "" ==> r.None?
    ensures UserKey in st && st[UserKey] != "" ==> r == parse(st[UserKey])
  {
    match GetItem(st, UserKey)
    case None => None
    case Some(text) => if text != "" then parse(text) else None
  }

  /** `getStoredUserRole`: the stored role, or null when absent or empty. */
  function GetStoredUserRole(st: Storage): (r: Option<string>)
    ensures r.Some? <==> RoleKey in st && st[RoleKey] != ""
    ensures r.Some? ==> r.value == st[RoleKey]
  {
    match GetItem(st, RoleKey)
    case None => None
    case Some(role) => if role != "" then Some(role) else None
  }

  /** `isAuthenticated`: a user is stored and parses. */
  predicate IsAuthenticated(st: Storage, parse: string -> Option<UserView>) {
    GetStoredUser(st, parse).Some?
  }

  predicate IsUserRole(st: Storage) {
    GetStoredUserRole(st) == Some("user")
  }

  predicate IsAdminRole(st: Storage) {
    GetStoredUserRole(st) == Some("admin")
  }

  /** `clearAuthData`: removes the two auth entries. */
  function ClearAuthData(st: Storage): Storage {
    st - {UserKey, RoleKey}
  }

  // ---------------------------------------------------------------- properties

  /** The two role tests are never both true, and each holds exactly when that
      role is stored. */
  lemma RolesExclusive(st: Storage)
    ensures !(IsUserRole(st) && IsAdminRole(st))
    ensures IsUserRole(st) <==> RoleKey in st && st[RoleKey] == "user"
    ensures IsAdminRole(st) <==> RoleKey in st && st[RoleKey] == "admin"
  {
  }

  /** Clearing removes exactly the two auth entries and keeps every other entry
      and its value; afterwards no user is stored and no role test holds. */
  lemma ClearAuthDataExact(st: Storage, parse: string -> Option<UserView>)
    ensures var r := ClearAuthData(st);
            && (forall k :: k in r <==> k in st && k != UserKey && k != RoleKey)
            && (forall k :: k in r ==> r[k] == st[k])
            && !IsAuthenticated(r, parse) && GetStoredUserRole(r).None?
            && !IsUserRole(r) && !IsAdminRole(r)
  {
  }
}
