/** The theme provider: the theme state read from the saved setting, the
    light/dark toggle and the context value with its two derived flags. */
module ThemeProvider {
  import opened Wrappers

  /** The two themes the context type allows. The saved setting is cast to
      a theme without a check, so the state can also hold another string. */
  predicate ValidTheme(theme: string) {
    theme == "light" || theme == "dark"
  }

  /** The lazy initial state: the saved setting when there is a non-empty
      one, "dark" otherwise. */
  function InitialTheme(saved: Option<string>): (theme: string)
    ensures saved.Some? && saved.value != "" ==> theme == saved.value
    ensures saved.None? || saved.value == "" ==> theme == "dark"
    ensures saved.Some? && ValidTheme(saved.value) ==> ValidTheme(theme)
  {
    if saved.Some? && saved.value != "" then saved.value else "dark"
  }

  /** The updater `toggleTheme` passes to `setTheme`. */
  function Toggled(theme: string): (next: string)
    ensures ValidTheme(next)
    ensures next == "dark" <==> theme == "light"
    ensures next == "light" <==> theme != "light"
  {
    if theme == "light" then "dark" else "light"
  }

  /** On the two valid themes, toggling twice gives back the theme; from any
      other value the theme settles after the first toggle. */
  lemma ToggleTwice(theme: string)
    ensures ValidTheme(theme) ==> Toggled(Toggled(theme)) == theme
    ensures !ValidTheme(theme) ==> Toggled(Toggled(theme)) == "dark"
  {
  }

  /** The provided context value. */
  datatype ContextValue = ContextValue(theme: string, isDark: bool, isLight: bool)

  function ContextOf(theme: string): (v: ContextValue)
    ensures v.theme == theme
    ensures v.isDark <==> theme == "dark"
    ensures v.isLight <==> theme == "light"
    ensures ValidTheme(theme) <==> v.isDark != v.isLight
  {
    assert "light" != "dark";
    ContextValue(theme, theme == "dark", theme == "light")
  }

  /** The provider's `theme` state. */
  class ThemeState {
    var theme: string

    constructor (saved: Option<string>)
      ensures theme == InitialTheme(saved)
    {
      theme := InitialTheme(saved);
    }

    /** `toggleTheme`. */
    method ToggleTheme()
      modifies this
      ensures theme == Toggled(old(theme)) && ValidTheme(theme)
    {
      theme := Toggled(theme);
    }

    /** `value`, the object handed to the context. */
    function Value(): (v: ContextValue)
      reads this
      ensures v == ContextOf(theme)
    {
      ContextOf(theme)
    }
  }
}
