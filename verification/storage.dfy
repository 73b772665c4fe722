/**
 * The browser's `localStorage` as an immutable map from keys to strings, and
 * the keys the application stores under.
 */
module LocalStorage {
  import opened Common

  type Store = map<string, string>

  const TokenKey := "access_token"
  const UserKey := "user_info"
  const ThemeKey := "smiivern-theme"
  const ActiveProfileKey := "perfil_activo_id"

  /** `localStorage.getItem(key)`. */
  function GetItem(s: Store, key: string): (r: Option<string>)
    ensures r.Some? <==> key in s
    ensures r.Some? ==> r.value == s[key]
  {
    if key in s then Some(s[key]) else None
  }

  /** `localStorage.setItem(key, value)`: only `key` changes. */
  function SetItem(s: Store, key: string, value: string): (r: Store)
    ensures r.Keys == s.Keys + {key}
    ensures r[key] == value
    ensures forall k :: k in s && k != key ==> r[k] == s[k]
  {
    s[key := value]
  }

  /** `localStorage.removeItem(key)`: only `key` changes. */
  function RemoveItem(s: Store, key: string): (r: Store)
    ensures r.Keys == s.Keys - {key}
    ensures forall k :: k in r ==> r[k] == s[k]
  {
    s - {key}
  }

  /** JavaScript truthiness of a string read from storage: present and non-empty. */
  predicate Truthy(v: Option<string>) {
    v.Some? && v.value != ""
  }
}
