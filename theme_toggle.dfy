// The light/dark theme switch: a `dark` flag read from localStorage, flipped
// by a button, and mirrored by an effect into the root element's class list
// and back into localStorage.

module ThemeToggle {
  import opened Browser

  const ThemeKey := "theme"
  const DarkClass := "dark"

  /** The initial `dark` state: `localStorage.getItem('theme') === 'dark'`. */
  function InitialDark(local: Store): (dark: bool)
    ensures dark <==> ThemeKey in local && local[ThemeKey] == "dark"
  {
    GetItem(local, ThemeKey) == Some("dark")
  }

  /** The value the effect writes under "theme". */
  function ThemeName(dark: bool): string
  {
    if dark then "dark" else "light"
  }

  /** The root class list after the effect: "dark" present iff `dark`,
      every other class as it was. */
  function SyncClasses(dark: bool, classes: set<string>): (r: set<string>)
    ensures DarkClass in r <==> dark
    ensures forall c :: c != DarkClass ==> (c in r <==> c in classes)
  {
    if dark then classes + {DarkClass} else classes - {DarkClass}
  }

  /** localStorage after the effect: "theme" holds "dark" or "light",
      every other key as it was. */
  function SyncStore(dark: bool, local: Store): (r: Store)
    ensures ThemeKey in r && (r[ThemeKey] == "dark" <==> dark)
    ensures r[ThemeKey] == "dark" || r[ThemeKey] == "light"
    ensures forall k :: k != ThemeKey ==> GetItem(r, k) == GetItem(local, k)
  {
    SetItem(local, ThemeKey, ThemeName(dark))
  }

  /** Reading the theme back after the effect yields the same `dark` value. */
  lemma ThemeRoundTrip(dark: bool, local: Store)
    ensures InitialDark(SyncStore(dark, local)) == dark
  {
  }

  /** Running the effect a second time with the same `dark` changes nothing. */
  lemma SyncIdempotent(dark: bool, classes: set<string>, local: Store)
    ensures SyncClasses(dark, SyncClasses(dark, classes)) == SyncClasses(dark, classes)
    ensures SyncStore(dark, SyncStore(dark, local)) == SyncStore(dark, local)
  {
  }

  /** On first render the stored theme is normalised: it stays "dark" when it
      was "dark", and any other value, or none, becomes "light". */
  lemma MountNormalisesTheme(local: Store)
    ensures var after := SyncStore(InitialDark(local), local);
      after[ThemeKey] == (if GetItem(local, ThemeKey) == Some("dark") then "dark" else "light")
  {
  }

  /** The mounted component. */
  class ThemeToggleComponent {
    var dark: bool

    /** `useState(() => localStorage.getItem('theme') === 'dark')`. */
    constructor (w: Window)
      ensures dark == InitialDark(w.localStorage)
    {
      dark := GetItem(w.localStorage, ThemeKey) == Some("dark");
    }

    /** The button's `onClick`: `setDark(!dark)`. */
    method Click()
      modifies this
      ensures dark == !old(dark)
    {
      dark := !dark;
    }

    /** The effect that runs whenever `dark` changes. */
    method SyncEffect(w: Window)
      modifies w`rootClasses, w`localStorage
      ensures w.rootClasses == SyncClasses(dark, old(w.rootClasses))
      ensures w.localStorage == SyncStore(dark, old(w.localStorage))
    {
      if dark {
        w.rootClasses := w.rootClasses + {DarkClass};
        w.localStorage := SetItem(w.localStorage, ThemeKey, "dark");
      } else {
        w.rootClasses := w.rootClasses - {DarkClass};
        w.localStorage := SetItem(w.localStorage, ThemeKey, "light");
      }
    }

    /** Two clicks, each followed by its effect, restore the theme, the root
        class "dark" and the stored value. */
    method ClickTwice(w: Window)
      requires w.rootClasses == SyncClasses(dark, w.rootClasses)
      requires w.localStorage == SyncStore(dark, w.localStorage)
      modifies this, w`rootClasses, w`localStorage
      ensures dark == old(dark)
      ensures w.rootClasses == old(w.rootClasses) && w.localStorage == old(w.localStorage)
    {
      Click();
      SyncEffect(w);
      Click();
      SyncEffect(w);
    }
  }
}
