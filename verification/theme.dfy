/**
 * The theme service: a dark/light flag, persisted under the theme key and
 * reflected as one of two classes on the document body.
 */
module Theme {
  import opened Common
  import opened LocalStorage

  const DarkClass := "dark-theme"
  const LightClass := "light-theme"

  /** The service's observable flag, the storage, and the body's class list. */
  datatype ThemeState = ThemeState(isDark: bool, store: Store, body: set<string>)

  /** `applyTheme`: add the class for the theme, remove the other; other classes stay. */
  function ApplyTheme(body: set<string>, isDark: bool): (r: set<string>)
    ensures isDark ==> DarkClass in r && LightClass !in r
    ensures !isDark ==> LightClass in r && DarkClass !in r
    ensures forall c :: c != DarkClass && c != LightClass ==> (c in r <==> c in body)
  {
    if isDark then body + {DarkClass} - {LightClass} else body + {LightClass} - {DarkClass}
  }

  /** The stored spelling of a theme. */
  function ThemeName(isDark: bool): string {
    if isDark then "dark" else "light"
  }

  /** `saveTheme`. */
  function SaveTheme(s: Store, isDark: bool): (r: Store)
    ensures GetItem(r, ThemeKey) == Some(ThemeName(isDark))
    ensures forall k :: k != ThemeKey ==> GetItem(r, k) == GetItem(s, k)
  {
    SetItem(s, ThemeKey, ThemeName(isDark))
  }

  /** `setTheme`: publish, persist, apply. */
  function SetTheme(st: ThemeState, isDark: bool): (r: ThemeState)
    ensures r.isDark == isDark
    ensures r.store == SaveTheme(st.store, isDark)
    ensures r.body == ApplyTheme(st.body, isDark)
  {
    ThemeState(isDark, SaveTheme(st.store, isDark), ApplyTheme(st.body, isDark))
  }

  /** `toggleTheme`. */
  function ToggleTheme(st: ThemeState): (r: ThemeState)
    ensures r.isDark == !st.isDark
  {
    SetTheme(st, !st.isDark)
  }

  /**
   * `loadSavedTheme`: a non-empty stored value decides (only 'dark' is dark);
   * otherwise the system preference `prefersDark` does.
   */
  function LoadSavedTheme(s: Store, prefersDark: bool): (r: bool)
    ensures Truthy(GetItem(s, ThemeKey)) ==> (r <==> s[ThemeKey] == "dark")
    ensures !Truthy(GetItem(s, ThemeKey)) ==> r == prefersDark
  {
    var savedTheme := GetItem(s, ThemeKey);
    if Truthy(savedTheme) then savedTheme.value == "dark" else prefersDark
  }

  /** The constructor: load the flag, then apply it; storage is not written. */
  function Init(s: Store, body: set<string>, prefersDark: bool): (r: ThemeState)
    ensures r.store == s
    ensures r.isDark == LoadSavedTheme(s, prefersDark)
    ensures r.body == ApplyTheme(body, r.isDark)
  {
    var isDark := LoadSavedTheme(s, prefersDark);
    ThemeState(isDark, s, ApplyTheme(body, isDark))
  }

  /** The body carries exactly one of the two theme classes, the one the flag names. */
  ghost predicate BodyMatches(st: ThemeState) {
    (DarkClass in st.body <==> st.isDark) && (LightClass in st.body <==> !st.isDark)
  }

  /** Every reachable state keeps the body in step with the flag. */
  lemma ThemeOperationsKeepBody(st: ThemeState, s: Store, body: set<string>, prefersDark: bool, isDark: bool)
    ensures BodyMatches(Init(s, body, prefersDark))
    ensures BodyMatches(SetTheme(st, isDark))
    ensures BodyMatches(ToggleTheme(st))
  {
  }

  /** A theme that was set is the theme the next start loads, whatever the system preference. */
  lemma SetThenReload(st: ThemeState, isDark: bool, body: set<string>, prefersDark: bool)
    ensures Init(SetTheme(st, isDark).store, body, prefersDark).isDark == isDark
  {
    var s := SetTheme(st, isDark).store;
    assert GetItem(s, ThemeKey) == Some(ThemeName(isDark));
  }

  /** Toggling twice restores the flag, the stored theme (once one was stored) and the body's theme class. */
  lemma ToggleTwice(st: ThemeState)
    ensures ToggleTheme(ToggleTheme(st)).isDark == st.isDark
    ensures GetItem(ToggleTheme(ToggleTheme(st)).store, ThemeKey) == Some(ThemeName(st.isDark))
    ensures BodyMatches(ToggleTheme(ToggleTheme(st)))
    ensures forall c :: c != DarkClass && c != LightClass ==> (c in ToggleTheme(ToggleTheme(st)).body <==> c in st.body)
  {
  }

  /** A stored value other than 'dark' — 'light', or anything else non-empty — loads the light theme. */
  lemma UnknownStoredIsLight(s: Store, prefersDark: bool)
    requires ThemeKey in s && s[ThemeKey] != "" && s[ThemeKey] != "dark"
    ensures !LoadSavedTheme(s, prefersDark)
  {
  }
}
