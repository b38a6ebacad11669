/** The light/dark theme switch (script.js lines 5-36): a dark-mode flag on the page
    body, a sun/moon icon, and the persisted preference under the key "theme". */
module Theme {

  /** What `localStorage.getItem` returns: a string, or null when the key is absent. */
  datatype Option<T> = None | Some(value: T)

  const THEME_KEY := "theme"
  const DARK := "dark"
  const LIGHT := "light"

  /** The presentation flags and the persistent store. `sunIcon` is false for the
      moon icon. */
  datatype Page = Page(darkMode: bool, sunIcon: bool, storage: map<string, string>)

  function GetItem(storage: map<string, string>, key: string): (v: Option<string>)
    ensures v.Some? <==> key in storage
    ensures v.Some? ==> v.value == storage[key]
  {
    if key in storage then Some(storage[key]) else None
  }

  /** The icon shows the sun exactly in dark mode. */
  predicate IconMatches(p: Page) {
    p.sunIcon == p.darkMode
  }

  /** The page as loaded before any script runs: light mode with the moon icon,
      over whatever the store holds. */
  function Fresh(storage: map<string, string>): (p: Page)
    ensures !p.darkMode && IconMatches(p) && p.storage == storage
  {
    Page(false, false, storage)
  }

  /** The click handler: dark mode flips, the icon follows the new mode, and the new
      mode is saved as one of the two literals; no other key of the store changes. */
  function Toggled(p: Page): (q: Page)
    ensures q.darkMode == !p.darkMode
    ensures IconMatches(q)
    ensures GetItem(q.storage, THEME_KEY) == Some(if q.darkMode then DARK else LIGHT)
    ensures forall key :: key != THEME_KEY ==> GetItem(q.storage, key) == GetItem(p.storage, key)
  {
    var dark := !p.darkMode;
    if dark then Page(true, true, p.storage[THEME_KEY := DARK])
    else Page(false, false, p.storage[THEME_KEY := LIGHT])
  }

  /** The DOMContentLoaded handler: only a saved value equal to "dark" turns on dark
      mode and the sun icon; an absent, "light" or any other value changes nothing,
      and the store is never written. */
  function Loaded(p: Page): (q: Page)
    ensures q.storage == p.storage
    ensures GetItem(p.storage, THEME_KEY) == Some(DARK) ==> q.darkMode && q.sunIcon
    ensures GetItem(p.storage, THEME_KEY) != Some(DARK) ==> q == p
  {
    if GetItem(p.storage, THEME_KEY) == Some(DARK) then p.(darkMode := true, sunIcon := true)
    else p
  }

  /** Toggling twice restores the mode, shows the icon that mode calls for (the
      original icon on every page whose icon matches its mode), and leaves the store
      holding the literal of the original mode, even if it held nothing before. */
  lemma ToggleTwice(p: Page)
    ensures Toggled(Toggled(p)).darkMode == p.darkMode
    ensures Toggled(Toggled(p)).sunIcon == p.darkMode
    ensures GetItem(Toggled(Toggled(p)).storage, THEME_KEY) == Some(if p.darkMode then DARK else LIGHT)
  {
  }

  /** The preference survives a reload: a fresh page over the store a toggle left
      comes up in the mode, and with the icon, the toggle chose. */
  lemma ReloadKeepsToggledTheme(p: Page)
    ensures Loaded(Fresh(Toggled(p).storage)).darkMode == Toggled(p).darkMode
    ensures Loaded(Fresh(Toggled(p).storage)).sunIcon == Toggled(p).sunIcon
  {
  }

  /** Loading keeps the icon in step with the mode; with Fresh and Toggled this
      makes IconMatches hold of every page the handlers can reach. */
  lemma LoadKeepsIconMatched(p: Page)
    requires IconMatches(p)
    ensures IconMatches(Loaded(p))
  {
  }

  /** Applying the saved theme a second time changes nothing. */
  lemma LoadIdempotent(p: Page)
    ensures Loaded(Loaded(p)) == Loaded(p)
  {
  }

  /** The theme-related state of the page. */
  class ThemeSwitch {
    var darkMode: bool
    var sunIcon: bool
    var storage: map<string, string>

    function View(): Page
      reads this
    {
      Page(darkMode, sunIcon, storage)
    }

    /** The page before its scripts run, over the given store. */
    constructor (storage: map<string, string>)
      ensures View() == Fresh(storage)
    {
      darkMode := false;
      sunIcon := false;
      this.storage := storage;
    }

    /** A click on the toggle button. */
    method Toggle()
      modifies this
      ensures View() == Toggled(old(View()))
    {
      darkMode := !darkMode;
      if darkMode {
        sunIcon := true;
        storage := storage[THEME_KEY := DARK];
      } else {
        sunIcon := false;
        storage := storage[THEME_KEY := LIGHT];
      }
    }

    /** The DOMContentLoaded event. */
    method ApplySavedTheme()
      modifies this
      ensures View() == Loaded(old(View()))
    {
      var savedTheme := GetItem(storage, THEME_KEY);
      if savedTheme == Some(DARK) {
        darkMode := true;
        sunIcon := true;
      }
    }
  }
}
