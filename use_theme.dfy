/** The colour-theme preference: read from browser storage at start-up,
    written back by its setter, and reflected as the `dark` class on the
    document root. */
module UseTheme {
  const StorageKey := "theme"
  const DarkClass := "dark"
  const DefaultTheme := "system"

  /** The three themes the setter accepts, in menu order. */
  const ThemeNames: seq<string> := ["light", "dark", "system"]

  /** Whether the document root should carry the `dark` class. */
  predicate WantsDark(theme: string, systemPrefersDark: bool) {
    theme == "dark" || (theme == "system" && systemPrefersDark)
  }

  /** Of the menu's themes, 'light' is never dark, 'dark' always is, and
      'system' follows the system preference; a stored value that names no
      theme renders light. */
  lemma WantsDarkByTheme(theme: string, systemPrefersDark: bool)
    ensures theme == ThemeNames[0] ==> !WantsDark(theme, systemPrefersDark)
    ensures theme == ThemeNames[1] ==> WantsDark(theme, systemPrefersDark)
    ensures theme == ThemeNames[2] ==> (WantsDark(theme, systemPrefersDark) <==> systemPrefersDark)
    ensures theme !in ThemeNames ==> !WantsDark(theme, systemPrefersDark)
  {
  }

  /** The theme at start-up. The stored value is taken as is when it is
      non-empty, without checking that it names one of the three themes. */
  function InitialTheme(hasWindow: bool, storage: map<string, string>): (t: string)
    ensures t != ""
    ensures hasWindow && StorageKey in storage && storage[StorageKey] != "" ==> t == storage[StorageKey]
    ensures !hasWindow || StorageKey !in storage || storage[StorageKey] == "" ==> t == DefaultTheme
  {
    if hasWindow && StorageKey in storage && storage[StorageKey] != "" then storage[StorageKey] else DefaultTheme
  }

  /** The root class set after `applyTheme`: only the `dark` class can change. */
  function AppliedClasses(classes: set<string>, theme: string, systemPrefersDark: bool): (r: set<string>)
    ensures DarkClass in r <==> WantsDark(theme, systemPrefersDark)
    ensures r - {DarkClass} == classes - {DarkClass}
  {
    if WantsDark(theme, systemPrefersDark) then classes + {DarkClass} else classes - {DarkClass}
  }

  /** Applying a theme a second time changes nothing further. */
  lemma AppliedClassesIdempotent(classes: set<string>, theme: string, systemPrefersDark: bool)
    ensures AppliedClasses(AppliedClasses(classes, theme, systemPrefersDark), theme, systemPrefersDark)
         == AppliedClasses(classes, theme, systemPrefersDark)
  {
  }

  /** `light` removes the class whatever the system prefers; `dark` always sets it. */
  lemma ExplicitThemesIgnoreSystem(classes: set<string>, systemPrefersDark: bool)
    ensures AppliedClasses(classes, "light", systemPrefersDark) == classes - {DarkClass}
    ensures AppliedClasses(classes, "dark", systemPrefersDark) == classes + {DarkClass}
  {
  }

  /** The state `useTheme` keeps: the browser storage it persists to, the
      theme state, the root element's class list and the live value of the
      `prefers-color-scheme: dark` media query. */
  class ThemeStore {
    var storage: map<string, string>
    var theme: string
    var rootClasses: set<string>
    var systemPrefersDark: bool

    /** The root's `dark` class agrees with the current theme. */
    ghost predicate Synced()
      reads this
    {
      (DarkClass in rootClasses) == WantsDark(theme, systemPrefersDark)
    }

    /** Mounting: the lazy initial state, then the first run of the effect. */
    constructor (hasWindow: bool, storage0: map<string, string>, classes0: set<string>, prefersDark: bool)
      ensures storage == storage0 && systemPrefersDark == prefersDark
      ensures theme == InitialTheme(hasWindow, storage0)
      ensures rootClasses == AppliedClasses(classes0, theme, prefersDark)
      ensures Synced()
    {
      storage := storage0;
      theme := InitialTheme(hasWindow, storage0);
      rootClasses := classes0;
      systemPrefersDark := prefersDark;
      new;
      ApplyTheme(theme);
    }

    /** `applyTheme`: add or remove the `dark` class on the root. */
    method ApplyTheme(t: string)
      modifies this`rootClasses
      ensures rootClasses == AppliedClasses(old(rootClasses), t, systemPrefersDark)
    {
      if WantsDark(t, systemPrefersDark) {
        rootClasses := rootClasses + {DarkClass};
      } else {
        rootClasses := rootClasses - {DarkClass};
      }
    }

    /** The effect that reruns whenever `theme` changes. */
    method ThemeEffect()
      modifies this`rootClasses
      ensures rootClasses == AppliedClasses(old(rootClasses), theme, systemPrefersDark)
      ensures Synced()
    {
      ApplyTheme(theme);
    }

    /** The `change` listener on the media query: it re-applies only the
        `system` theme and otherwise leaves the class set alone. */
    method OnSystemChange(matches: bool)
      modifies this`systemPrefersDark, this`rootClasses
      ensures systemPrefersDark == matches
      ensures theme == "system" ==> rootClasses == AppliedClasses(old(rootClasses), "system", matches)
      ensures theme != "system" ==> rootClasses == old(rootClasses)
      ensures old(Synced()) ==> Synced()
    {
      systemPrefersDark := matches;
      if theme == "system" {
        ApplyTheme("system");
      }
    }

    /** `setTheme`: persist, then update the state. A later start-up reads
        the same theme back. */
    method SetTheme(t: string)
      requires t in ThemeNames
      modifies this`storage, this`theme
      ensures storage == old(storage)[StorageKey := t]
      ensures theme == t
      ensures InitialTheme(true, storage) == t
    {
      storage := storage[StorageKey := t];
      theme := t;
    }
  }
}
