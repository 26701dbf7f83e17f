/** The light/dark theme: a two-state switch whose value is kept under its
    own key of the persisted store, with "light" as the default. */
module Theme {
  import opened CityModel

  const Light: string := "light"
  const Dark: string := "dark"
  /** The toggle shows a moon in the light theme and a sun otherwise. */
  const MoonIcon: string := "\U{1F319}"
  const SunIcon: string := "\U{2600}\U{FE0F}"

  /** The theme in use and what the store holds under the theme key. */
  datatype ThemeState = ThemeState(current: string, stored: Option<string>)

  /** `loadTheme`: the stored value, unless it is missing or empty (both
      falsy), in which case "light". */
  function LoadTheme(stored: Option<string>): (theme: string)
    ensures stored.Some? && stored.value != "" ==> theme == stored.value
    ensures stored.None? || stored.value == "" ==> theme == Light
    ensures theme != ""
  {
    match stored
    case Some(value) => if value != "" then value else Light
    case None => Light
  }

  /** `init`: adopts the loaded theme; the store is only read. */
  function Init(stored: Option<string>): (r: ThemeState)
    ensures r.stored == stored
    ensures r.current == LoadTheme(stored)
  {
    ThemeState(LoadTheme(stored), stored)
  }

  /** `toggle`: "light" becomes "dark", anything else becomes "light", and
      the new value is written to the store. */
  function Toggle(t: ThemeState): (r: ThemeState)
    ensures r.current == Dark <==> t.current == Light
    ensures r.current == Light <==> t.current != Light
    ensures r.stored == Some(r.current)
  {
    var next := if t.current == Light then Dark else Light;
    ThemeState(next, Some(next))
  }

  /** The icon of the toggle button for a theme. */
  function Icon(theme: string): (icon: string)
    ensures icon == MoonIcon <==> theme == Light
    ensures icon == SunIcon <==> theme != Light
  {
    if theme == Light then MoonIcon else SunIcon
  }

  /** Toggling twice restores either of the two themes. */
  lemma ToggleTwice(t: ThemeState)
    requires t.current == Light || t.current == Dark
    ensures Toggle(Toggle(t)).current == t.current
  {
  }

  /** A toggled theme survives a reload: initialising from what toggle
      stored yields the toggled theme. */
  lemma ToggleSurvivesReload(t: ThemeState)
    ensures Init(Toggle(t).stored).current == Toggle(t).current
  {
  }

  /** Every toggle switches the icon between moon and sun. */
  lemma ToggleSwitchesIcon(t: ThemeState)
    requires t.current == Light || t.current == Dark
    ensures Icon(Toggle(t).current) != Icon(t.current)
  {
  }
}
