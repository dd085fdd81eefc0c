/**
  * The light/dark theme of the site (js/script.js lines 10-38 and 112-126). The
  * page state is the stored preference (`localStorage.getItem('theme')`, absent or
  * a string), the `dark` class on `<body>` and the `data-theme` attribute on
  * `<html>`. The system colour-scheme preference enters as a boolean.
  */
module Theme {
  import opened Wrappers

  const Dark: string := "dark"
  const Light: string := "light"

  /** The three pieces of state the theme code reads and writes. */
  datatype ThemeState = ThemeState(stored: Option<string>, dark: bool, dataTheme: string)

  /** A stored value JavaScript treats as present: a non-empty string. */
  predicate HasStoredTheme(stored: Option<string>) {
    stored.Some? && stored.value != ""
  }

  /** `localStorage.getItem('theme') || 'light'`. */
  function SavedTheme(stored: Option<string>): string {
    if HasStoredTheme(stored) then stored.value else Light
  }

  /** The theme the body flag shows: how the toggle reads the current theme. */
  function DisplayedTheme(s: ThemeState): string {
    if s.dark then Dark else Light
  }

  /** `prefersDark ? 'dark' : 'light'`. */
  function SystemTheme(prefersDark: bool): string {
    if prefersDark then Dark else Light
  }

  /** The attribute names the theme the flag shows. */
  predicate Consistent(s: ThemeState) {
    s.dataTheme == DisplayedTheme(s)
  }

  // ---------------------------------------------------------------------------
  // The operations, as functions of the state
  // ---------------------------------------------------------------------------

  /** `applyTheme(theme)`: "dark" turns dark mode on; every other value turns it off. */
  function Applied(s: ThemeState, theme: string): ThemeState {
    if theme == Dark then s.(dark := true, dataTheme := Dark)
    else s.(dark := false, dataTheme := Light)
  }

  /** The toggle's click handler: apply the opposite of what the flag shows, and store it. */
  function Toggled(s: ThemeState): ThemeState {
    var newTheme := if DisplayedTheme(s) == Dark then Light else Dark;
    Applied(s, newTheme).(stored := Some(newTheme))
  }

  /**
    * The script's top level, in order: apply the saved theme (or light), then, if
    * nothing is stored, apply the system theme and store it.
    */
  function Loaded(s: ThemeState, prefersDark: bool): ThemeState {
    var first := Applied(s, SavedTheme(s.stored));
    if !HasStoredTheme(first.stored) then
      Applied(first, SystemTheme(prefersDark)).(stored := Some(SystemTheme(prefersDark)))
    else first
  }

  /** The `change` listener on the colour-scheme query: it follows the system only while nothing is stored. */
  function SystemChanged(s: ThemeState, matches: bool): ThemeState {
    if !HasStoredTheme(s.stored) then Applied(s, SystemTheme(matches)) else s
  }

  // ---------------------------------------------------------------------------
  // The page, updated in place
  // ---------------------------------------------------------------------------

  class ThemePage {
    var stored: Option<string>
    var dark: bool
    var dataTheme: string

    function State(): ThemeState
      reads this
    {
      ThemeState(stored, dark, dataTheme)
    }

    /** The page before the script runs; the markup's own class and attribute are arbitrary. */
    constructor(stored: Option<string>, dark: bool, dataTheme: string)
      ensures State() == ThemeState(stored, dark, dataTheme)
    {
      this.stored := stored;
      this.dark := dark;
      this.dataTheme := dataTheme;
    }

    method ApplyTheme(theme: string)
      modifies this
      ensures State() == Applied(old(State()), theme)
    {
      if theme == Dark {
        dark := true;
        dataTheme := Dark;
      } else {
        dark := false;
        dataTheme := Light;
      }
    }

    method OnToggleClick()
      modifies this
      ensures State() == Toggled(old(State()))
    {
      var currentTheme := if dark then Dark else Light;
      var newTheme := if currentTheme == Dark then Light else Dark;
      ApplyTheme(newTheme);
      stored := Some(newTheme);
    }

    method Load(prefersDark: bool)
      modifies this
      ensures State() == Loaded(old(State()), prefersDark)
    {
      var savedTheme := if stored.Some? && stored.value != "" then stored.value else Light;
      ApplyTheme(savedTheme);
      if !(stored.Some? && stored.value != "") {
        var systemTheme := if prefersDark then Dark else Light;
        ApplyTheme(systemTheme);
        stored := Some(systemTheme);
      }
    }

    method OnSystemChange(matches: bool)
      modifies this
      ensures State() == SystemChanged(old(State()), matches)
    {
      if !(stored.Some? && stored.value != "") {
        var newTheme := if matches then Dark else Light;
        ApplyTheme(newTheme);
      }
    }
  }

  // ---------------------------------------------------------------------------
  // Properties
  // ---------------------------------------------------------------------------

  /**
    * After `applyTheme` the flag is on exactly for "dark", the attribute mirrors
    * the flag, and storage is untouched.
    */
  lemma AppliedShowsTheme(s: ThemeState, theme: string)
    ensures Applied(s, theme).dark <==> theme == Dark
    ensures Applied(s, theme).dark <==> Applied(s, theme).dataTheme == Dark
    ensures Consistent(Applied(s, theme))
    ensures Applied(s, theme).stored == s.stored
  {
  }

  /** After a toggle the stored value is the theme on display, and it is the opposite of the one before. */
  lemma ToggleStoresDisplayed(s: ThemeState)
    ensures Toggled(s).stored == Some(DisplayedTheme(Toggled(s)))
    ensures Toggled(s).dark == !s.dark
    ensures Consistent(Toggled(s))
  {
  }

  /** Toggling twice gives back the flag, and the attribute too when it agreed with the flag. */
  lemma ToggleTwice(s: ThemeState)
    ensures Toggled(Toggled(s)).dark == s.dark
    ensures Consistent(s) ==> Toggled(Toggled(s)).dataTheme == s.dataTheme
    ensures Toggled(Toggled(s)).stored == Some(DisplayedTheme(s))
  {
  }

  /**
    * After the script has loaded, a theme is stored and shown consistently: the
    * stored one if there was one, otherwise the system's. An empty store shows
    * light before the fallback runs.
    */
  lemma LoadStoresTheme(s: ThemeState, prefersDark: bool)
    ensures HasStoredTheme(Loaded(s, prefersDark).stored)
    ensures Consistent(Loaded(s, prefersDark))
    ensures HasStoredTheme(s.stored) ==>
      Loaded(s, prefersDark).stored == s.stored
      && (Loaded(s, prefersDark).dark <==> s.stored.value == Dark)
    ensures !HasStoredTheme(s.stored) ==>
      Loaded(s, prefersDark).stored == Some(SystemTheme(prefersDark))
      && Loaded(s, prefersDark).dark == prefersDark
    ensures !HasStoredTheme(s.stored) ==> Applied(s, SavedTheme(s.stored)).dataTheme == Light
  {
  }

  /** The system listener never writes storage, and once a theme is stored it changes nothing. */
  lemma SystemChangeAfterLoad(s: ThemeState, prefersDark: bool, matches: bool)
    ensures SystemChanged(s, matches).stored == s.stored
    ensures SystemChanged(Loaded(s, prefersDark), matches) == Loaded(s, prefersDark)
  {
    LoadStoresTheme(s, prefersDark);
  }

  /** Toggles after loading keep a theme stored, and keep it equal to the theme on display. */
  lemma {:induction false} TogglesAfterLoadKeepStore(s: ThemeState, prefersDark: bool, n: nat)
    ensures HasStoredTheme(ToggledTimes(Loaded(s, prefersDark), n).stored)
    ensures Consistent(ToggledTimes(Loaded(s, prefersDark), n))
    ensures n > 0 ==>
      ToggledTimes(Loaded(s, prefersDark), n).stored == Some(DisplayedTheme(ToggledTimes(Loaded(s, prefersDark), n)))
  {
    if n == 0 {
      LoadStoresTheme(s, prefersDark);
    } else {
      TogglesAfterLoadKeepStore(s, prefersDark, n - 1);
      ToggleStoresDisplayed(ToggledTimes(Loaded(s, prefersDark), n - 1));
    }
  }

  function ToggledTimes(s: ThemeState, n: nat): ThemeState {
    if n == 0 then s else Toggled(ToggledTimes(s, n - 1))
  }
}
