/** The theme switch of the application frame (`polymet-fainder/src/polymet/layouts/main-layout.tsx`).
    The component's `theme` state, the `dark` class on the document element and the browser's
    `localStorage` are the three pieces of state it changes; they are the fields of `ThemeState`. */
module MainLayout {
  import opened Wrappers

  /** `localStorage.getItem("theme")` read as a condition: a missing key (`null`) and the empty
      string both count as no saved theme. */
  function SavedTheme(storage: map<string, string>): (saved: Option<string>)
    ensures saved.Some? <==> "theme" in storage && storage["theme"] != ""
    ensures saved.Some? ==> saved.value == storage["theme"]
  {
    if "theme" in storage && storage["theme"] != "" then Some(storage["theme"]) else None
  }

  /** The theme after mounting: a saved theme as it is, else `dark` when the system prefers it,
      else the theme the component already had. */
  function MountTheme(current: string, saved: Option<string>, systemPrefersDark: bool): string {
    if saved.Some? then saved.value else if systemPrefersDark then "dark" else current
  }

  /** `theme === "light" ? "dark" : "light"`. */
  function Flip(theme: string): string {
    if theme == "light" then "dark" else "light"
  }

  /** A toggle gives `dark` exactly from `light` and `light` from anything else; it always lands
      on one of the two, and two toggles from either of them come back. */
  lemma FlipLaws(theme: string)
    ensures Flip(theme) == "dark" <==> theme == "light"
    ensures Flip(theme) == "light" <==> theme != "light"
    ensures theme == "light" || theme == "dark" ==> Flip(Flip(theme)) == theme
  {
  }

  /** A saved theme wins over the system preference, and the preference only matters when
      nothing is saved. */
  lemma MountPrecedence(current: string, storage: map<string, string>, systemPrefersDark: bool)
    ensures "theme" in storage && storage["theme"] != "" ==>
      MountTheme(current, SavedTheme(storage), systemPrefersDark) == storage["theme"]
    ensures ("theme" !in storage || storage["theme"] == "") ==>
      MountTheme(current, SavedTheme(storage), systemPrefersDark) == (if systemPrefersDark then "dark" else current)
  {
  }

  /** What a toggle stores is what the next mount adopts, whatever the system prefers. */
  lemma ToggleSurvivesRestart(theme: string, storage: map<string, string>, current: string, systemPrefersDark: bool)
    ensures MountTheme(current, SavedTheme(storage["theme" := Flip(theme)]), systemPrefersDark) == Flip(theme)
  {
  }

  class ThemeState {
    var theme: string
    var darkClass: bool
    var storage: map<string, string>

    /** The document carries the `dark` class exactly when the theme is `dark`. */
    predicate Valid()
      reads this
    {
      darkClass <==> theme == "dark"
    }

    /** A fresh page: the theme starts as `light`, the document has no `dark` class, and the
        storage is whatever the browser kept. */
    constructor (kept: map<string, string>)
      ensures theme == "light" && !darkClass && storage == kept
      ensures Valid()
    {
      theme := "light";
      darkClass := false;
      storage := kept;
    }

    /** The mount effect. The media query's answer is the parameter. */
    method Mount(systemPrefersDark: bool)
      modifies this
      ensures theme == MountTheme(old(theme), SavedTheme(old(storage)), systemPrefersDark)
      ensures SavedTheme(old(storage)).Some? ==> darkClass == (theme == "dark")
      ensures SavedTheme(old(storage)).None? && systemPrefersDark ==> darkClass
      ensures SavedTheme(old(storage)).None? && !systemPrefersDark ==> darkClass == old(darkClass)
      ensures storage == old(storage)
      ensures old(Valid()) ==> Valid()
    {
      var savedTheme := SavedTheme(storage);
      if savedTheme.Some? {
        theme := savedTheme.value;
        darkClass := savedTheme.value == "dark";
      } else if systemPrefersDark {
        theme := "dark";
        darkClass := true;
      }
    }

    /** `toggleTheme`: the flipped theme, the class set to match it, and the new theme stored. */
    method ToggleTheme()
      modifies this
      ensures theme == Flip(old(theme))
      ensures darkClass == (theme == "dark")
      ensures storage == old(storage)["theme" := theme]
      ensures Valid()
    {
      var newTheme := Flip(theme);
      theme := newTheme;
      darkClass := newTheme == "dark";
      storage := storage["theme" := newTheme];
    }
  }
}
