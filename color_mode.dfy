/**
 * The color-mode hook: the mode on display, the theme a toggle switches to,
 * and the choice between a light and a dark value. The theme store behind it
 * (next-themes) is modelled only as far as the hook reads it: `theme`,
 * `forcedTheme`, and `resolvedTheme`, which is the system preference when the
 * theme is "system" and the theme itself otherwise.
 */
module ColorMode {

  import opened Wrappers

  /** A `string | undefined` that JavaScript treats as true: defined and non-empty. */
  predicate Truthy(a: Option<string>)
  {
    a.Some? && a.value != ""
  }

  /** `a || b` on two `string | undefined` values. */
  function Or(a: Option<string>, b: Option<string>): Option<string>
  {
    if Truthy(a) then a else b
  }

  /** `colorMode`: the forced theme when one is set, else the resolved theme. */
  function ColorModeOf(forcedTheme: Option<string>, resolvedTheme: Option<string>): (mode: Option<string>)
    ensures Truthy(forcedTheme) ==> mode == forcedTheme
    ensures !Truthy(forcedTheme) ==> mode == resolvedTheme
  {
    Or(forcedTheme, resolvedTheme)
  }

  /** The theme `toggleColorMode` hands to `setTheme`. */
  function NextTheme(theme: Option<string>, resolvedTheme: Option<string>): (next: string)
    ensures next == "light" || next == "dark"
    ensures Or(theme, resolvedTheme) == Some("system") ==> (next == "light" <==> resolvedTheme == Some("dark"))
    ensures Or(theme, resolvedTheme) != Some("system") ==> (next == "light" <==> Or(theme, resolvedTheme) == Some("dark"))
  {
    var currentTheme := Or(theme, resolvedTheme);
    if currentTheme == Some("system") then
      (if resolvedTheme == Some("dark") then "light" else "dark")
    else
      (if currentTheme == Some("dark") then "light" else "dark")
  }

  /** `useColorModeValue(light, dark)` for the given color mode. */
  function ColorModeValue<T>(light: T, dark: T, colorMode: Option<string>): (v: T)
    ensures colorMode == Some("dark") ==> v == dark
    ensures colorMode != Some("dark") ==> v == light
  {
    if colorMode == Some("dark") then dark else light
  }

  /** The theme state the hook reads. */
  datatype Themes = Themes(theme: Option<string>, forcedTheme: Option<string>, systemTheme: Option<string>)

  function ResolvedTheme(t: Themes): Option<string>
  {
    if t.theme == Some("system") then t.systemTheme else t.theme
  }

  /** `setTheme(value)`, which `setColorMode` is. */
  function SetTheme(t: Themes, value: string): (u: Themes)
    ensures u.theme == Some(value)
    ensures u.forcedTheme == t.forcedTheme && u.systemTheme == t.systemTheme
  {
    t.(theme := Some(value))
  }

  function CurrentColorMode(t: Themes): Option<string>
  {
    ColorModeOf(t.forcedTheme, ResolvedTheme(t))
  }

  /** `toggleColorMode()`. */
  function Toggle(t: Themes): (u: Themes)
    ensures u.theme == Some("light") || u.theme == Some("dark")
    ensures u.forcedTheme == t.forcedTheme && u.systemTheme == t.systemTheme
  {
    SetTheme(t, NextTheme(t.theme, ResolvedTheme(t)))
  }

  /** A toggle never chooses "system", and it moves an explicit theme to the other one. */
  lemma ToggleFlipsExplicitTheme(t: Themes)
    ensures Toggle(t).theme == Some("light") || Toggle(t).theme == Some("dark")
    ensures t.theme == Some("light") ==> Toggle(t).theme == Some("dark")
    ensures t.theme == Some("dark") ==> Toggle(t).theme == Some("light")
    ensures t.theme == Some("system") && t.systemTheme == Some("dark") ==> Toggle(t).theme == Some("light")
    ensures t.theme == Some("system") && t.systemTheme != Some("dark") ==> Toggle(t).theme == Some("dark")
  {
  }

  /** Toggling twice from an explicit light or dark theme comes back to it. */
  lemma ToggleTwiceRestores(t: Themes)
    requires t.theme == Some("light") || t.theme == Some("dark")
    ensures Toggle(Toggle(t)).theme == t.theme
  {
    ToggleFlipsExplicitTheme(t);
    ToggleFlipsExplicitTheme(Toggle(t));
  }

  /** Unless a theme is forced, a toggle changes the color mode on display to light or dark. */
  lemma ToggleChangesColorMode(t: Themes)
    requires !Truthy(t.forcedTheme)
    requires t.systemTheme == Some("light") || t.systemTheme == Some("dark")
    ensures CurrentColorMode(Toggle(t)) != CurrentColorMode(t)
    ensures CurrentColorMode(Toggle(t)) == Some("light") || CurrentColorMode(Toggle(t)) == Some("dark")
  {
    ToggleFlipsExplicitTheme(t);
  }

  /** A forced theme is shown whatever the toggle or `setColorMode` do. */
  lemma ForcedThemeWins(t: Themes, value: string)
    requires Truthy(t.forcedTheme)
    ensures CurrentColorMode(Toggle(t)) == t.forcedTheme
    ensures CurrentColorMode(SetTheme(t, value)) == t.forcedTheme
  {
  }

  /** `setColorMode(mode)` shows that mode, unless a theme is forced. */
  lemma SetColorModeShowsIt(t: Themes, mode: string)
    requires !Truthy(t.forcedTheme)
    requires mode == "light" || mode == "dark"
    ensures CurrentColorMode(SetTheme(t, mode)) == Some(mode)
  {
  }

  /** `useColorModeValue` picks the dark value exactly when the color mode on display is dark. */
  lemma ColorModeValuePicksByMode<T>(t: Themes, light: T, dark: T)
    requires light != dark
    ensures ColorModeValue(light, dark, CurrentColorMode(t)) == dark <==> CurrentColorMode(t) == Some("dark")
    ensures !Truthy(t.forcedTheme) ==> ColorModeValue(light, dark, CurrentColorMode(SetTheme(t, "dark"))) == dark
    ensures !Truthy(t.forcedTheme) ==> ColorModeValue(light, dark, CurrentColorMode(SetTheme(t, "light"))) == light
  {
  }
}
