/** The theme toggle: the next theme a click selects, and which icon is lit. */
module ThemeSwitcher {
  import opened Wrappers
  import JsLib

  /** The themes in cycling order. */
  const Themes: seq<string> := ["brown", "white", "dark"]

  /** `themes.indexOf(theme ?? "brown")`: -1 for a theme not in the list. */
  function CurrentIndex(theme: Option<string>): (r: int)
    ensures -1 <= r < |Themes|
    ensures theme.None? ==> r == 0
    ensures theme.Some? ==> (r == -1 <==> theme.value !in Themes)
    ensures r >= 0 ==> Themes[r] == theme.GetOr("brown")
  {
    JsLib.IndexOf(Themes, theme.GetOr("brown"))
  }

  /** The theme `cycleTheme` hands to `setTheme`. */
  function NextTheme(theme: Option<string>): (r: string)
    ensures r in Themes
  {
    Themes[JsLib.Remainder(CurrentIndex(theme) + 1, |Themes|)]
  }

  /** The icon flags. */
  predicate IsDark(theme: Option<string>) { theme == Some("dark") }
  predicate IsLight(theme: Option<string>) { theme == Some("white") }
  predicate IsBrown(theme: Option<string>) { theme == Some("brown") }

  /** A listed theme moves to the one after it in the list, the last back to the first. */
  lemma NextOfListed(i: int)
    requires 0 <= i < |Themes|
    ensures NextTheme(Some(Themes[i])) == Themes[(i + 1) % |Themes|]
  {
    assert CurrentIndex(Some(Themes[i])) == i;
  }

  /** brown, then white, then dark, then brown again. */
  lemma CycleOrder()
    ensures NextTheme(Some("brown")) == "white"
    ensures NextTheme(Some("white")) == "dark"
    ensures NextTheme(Some("dark")) == "brown"
  {
    NextOfListed(0);
    NextOfListed(1);
    NextOfListed(2);
  }

  /** Three clicks from a listed theme come back to it. */
  lemma ThreeCyclesReturn(theme: string)
    requires theme in Themes
    ensures NextTheme(Some(NextTheme(Some(NextTheme(Some(theme)))))) == theme
  {
    CycleOrder();
  }

  /**
   * No theme yet counts as brown, so the next is white, though no icon is
   * lit; a theme not in the list has index -1, so the next is brown.
   */
  lemma UnsetOrUnlisted(theme: Option<string>)
    ensures theme.None? ==> NextTheme(theme) == "white" && !IsDark(theme) && !IsLight(theme) && !IsBrown(theme)
    ensures theme.Some? && theme.value !in Themes ==> NextTheme(theme) == "brown"
  {
  }

  /** For a listed theme exactly one icon flag holds. */
  lemma OneFlag(theme: string)
    requires theme in Themes
    ensures IsDark(Some(theme)) || IsLight(Some(theme)) || IsBrown(Some(theme))
    ensures !(IsDark(Some(theme)) && IsLight(Some(theme)))
    ensures !(IsDark(Some(theme)) && IsBrown(Some(theme)))
    ensures !(IsLight(Some(theme)) && IsBrown(Some(theme)))
  {
  }
}
