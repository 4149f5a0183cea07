/** The weather app's colour theme: the string `current_theme`, the
    three-way cycle the theme button steps through, which colour table is
    in force for a given theme string, and the icon the button shows. */
module Themes {

  const Light: string := "light"
  const Dark: string := "dark"
  const Pink: string := "pink"

  /** The three theme names the app itself ever stores. */
  predicate IsTheme(t: string) {
    t == Light || t == Dark || t == Pink
  }

  /** The theme after one click on the theme button: light becomes dark,
      dark becomes pink, and every other string becomes light. */
  function NextTheme(t: string): (r: string)
    ensures IsTheme(r)
    ensures r != t
  {
    if t == Light then Dark
    else if t == Dark then Pink
    else Light
  }

  /** The transitions one click makes: light to dark, dark to pink, and
      every other string, pink included, to light. */
  lemma Transitions(t: string)
    ensures NextTheme(Light) == Dark && NextTheme(Dark) == Pink
    ensures t != Light && t != Dark ==> NextTheme(t) == Light
  {
  }

  /** Three clicks bring every one of the three themes back to itself. */
  lemma CycleReturns(t: string)
    requires IsTheme(t)
    ensures NextTheme(NextTheme(NextTheme(t))) == t
    ensures NextTheme(t) != t && NextTheme(NextTheme(t)) != t
  {
  }

  /** A string that is none of the three themes falls into the cycle after
      one click, at light, and never comes back. */
  lemma StrayThemeEntersCycle(t: string)
    requires !IsTheme(t)
    ensures NextTheme(t) == Light
    ensures NextTheme(NextTheme(NextTheme(NextTheme(t)))) == Light
  {
  }

  /** The colour table `get_theme_colors` returns. */
  datatype Palette = LightPalette | DarkPalette | PinkPalette

  /** Which table is returned for a theme string: "light" and "dark" have
      their own, and every other string gets the pink one. */
  function PaletteOf(t: string): (p: Palette)
    ensures p == LightPalette <==> t == Light
    ensures p == DarkPalette <==> t == Dark
  {
    if t == Light then LightPalette
    else if t == Dark then DarkPalette
    else PinkPalette
  }

  /** The order the palettes follow when the button is clicked. */
  function NextPalette(p: Palette): Palette {
    match p
    case LightPalette => DarkPalette
    case DarkPalette => PinkPalette
    case PinkPalette => LightPalette
  }

  /** Clicking moves the colour table one step along its own cycle, for
      every theme string, including those that are none of the three. */
  lemma PaletteFollowsCycle(t: string)
    ensures PaletteOf(NextTheme(t)) == NextPalette(PaletteOf(t))
  {
  }

  /** The icon on the theme button. */
  datatype ButtonIcon = Sunny | DarkMode | Favorite

  /** The icon that goes with each colour table. */
  function IconOf(p: Palette): (r: ButtonIcon)
    ensures r == Sunny <==> p == LightPalette
    ensures r == DarkMode <==> p == DarkPalette
  {
    match p
    case LightPalette => Sunny
    case DarkPalette => DarkMode
    case PinkPalette => Favorite
  }
}
