/**
 * The token service: the access token and the logged-in user's record kept
 * under two fixed storage keys. Serialising the user (`JSON.stringify`) and
 * reading it back (`JSON.parse`) are parameters.
 */
module TokenService {
  import opened Common
  import opened LocalStorage

  /** The user record the login response carries. */
  datatype UserInfo = UserInfo(id: int, email: string, nombre: string, apellido: string, tipoUsuario: string)

  /** Stores the token and the serialised user; no other key changes. */
  function SetAuthToken(s: Store, token: string, user: UserInfo, encode: UserInfo -> string): (r: Store)
    ensures r.Keys == s.Keys + {TokenKey, UserKey}
    ensures r[TokenKey] == token && r[UserKey] == encode(user)
    ensures forall k :: k in s && k != TokenKey && k != UserKey ==> r[k] == s[k]
  {
    SetItem(SetItem(s, TokenKey, token), UserKey, encode(user))
  }

  /** `getToken`: the stored token, or `null`. */
  function GetToken(s: Store): (r: Option<string>)
    ensures r.Some? <==> TokenKey in s
    ensures r.Some? ==> r.value == s[TokenKey]
  {
    GetItem(s, TokenKey)
  }

  /** The stored user, parsed, when the stored string is present and non-empty. */
  function GetUserInfo(s: Store, decode: string -> UserInfo): (r: Option<UserInfo>)
    ensures r.Some? <==> UserKey in s && s[UserKey] != ""
    ensures r.Some? ==> r.value == decode(s[UserKey])
  {
    var userStr := GetItem(s, UserKey);
    if Truthy(userStr) then Some(decode(userStr.value)) else None
  }

  /** Removes the token and the user; no other key changes. */
  function ClearAuth(s: Store): (r: Store)
    ensures r.Keys == s.Keys - {TokenKey, UserKey}
    ensures forall k :: k in r ==> r[k] == s[k]
  {
    RemoveItem(RemoveItem(s, TokenKey), UserKey)
  }

  /** The `if (token)` test callers apply to `getToken()`: present and non-empty. */
  predicate HasToken(s: Store)
    ensures HasToken(s) <==> TokenKey in s && s[TokenKey] != ""
  {
    Truthy(GetToken(s))
  }

  /** After `setAuthToken(t, u)`, `getToken()` returns `t`. */
  lemma SetThenGetToken(s: Store, token: string, user: UserInfo, encode: UserInfo -> string)
    ensures GetToken(SetAuthToken(s, token, user, encode)) == Some(token)
  {
  }

  /** The stored user reads back whenever parsing inverts serialising and the serialised text is non-empty. */
  lemma SetThenGetUserInfo(s: Store, token: string, user: UserInfo, encode: UserInfo -> string, decode: string -> UserInfo)
    requires decode(encode(user)) == user && encode(user) != ""
    ensures GetUserInfo(SetAuthToken(s, token, user, encode), decode) == Some(user)
  {
  }

  /** After `clearAuth()` there is neither a token nor a user. */
  lemma ClearThenGet(s: Store, decode: string -> UserInfo)
    ensures GetToken(ClearAuth(s)) == None
    ensures GetUserInfo(ClearAuth(s), decode) == None
    ensures !HasToken(ClearAuth(s))
  {
  }

  /** Without a stored user there is no user info. */
  lemma NoUserKeyNoUserInfo(s: Store, decode: string -> UserInfo)
    requires UserKey !in s
    ensures GetUserInfo(s, decode) == None
  {
  }

  /** The theme and the active profile survive both `setAuthToken` and `clearAuth`. */
  lemma AuthLeavesOtherKeys(s: Store, token: string, user: UserInfo, encode: UserInfo -> string)
    ensures GetItem(SetAuthToken(s, token, user, encode), ThemeKey) == GetItem(s, ThemeKey)
    ensures GetItem(SetAuthToken(s, token, user, encode), ActiveProfileKey) == GetItem(s, ActiveProfileKey)
    ensures GetItem(ClearAuth(s), ThemeKey) == GetItem(s, ThemeKey)
    ensures GetItem(ClearAuth(s), ActiveProfileKey) == GetItem(s, ActiveProfileKey)
  {
  }
}
