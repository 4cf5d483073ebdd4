/** The theme store of src/contexts/ThemeContext.tsx: one theme value held by
    the provider, overwritten by `toggleTheme` and `setTheme`. The persisted
    start value is a constructor argument. */
module ThemeContext {
  import opened Seqs
  import opened Types

  const OutsideProvider := "useTheme must be used within a ThemeProvider"

  const DefaultTheme := Theme(Dark, "navy", "cyan")

  /** The updater `toggleTheme` hands to the state setter: light becomes dark and
      anything else becomes light; the colours are kept. */
  function Toggled(t: Theme): (r: Theme)
    ensures r.mode != t.mode
    ensures r.primary == t.primary && r.accent == t.accent
  {
    t.(mode := if t.mode == Light then Dark else Light)
  }

  /** Toggling twice gives back the theme toggled. */
  lemma ToggleInvolution(t: Theme)
    ensures Toggled(Toggled(t)) == t
  {
    assert Toggled(Toggled(t)).mode == t.mode;
  }

  class ThemeProvider {
    var theme: Theme

    /** The provider starts from the persisted theme, or from the default. */
    constructor (stored: Option<Theme>)
      ensures theme == if stored.Some? then stored.value else DefaultTheme
    {
      theme := if stored.Some? then stored.value else DefaultTheme;
    }

    method ToggleTheme()
      modifies this
      ensures theme == Toggled(old(theme))
    {
      theme := Toggled(theme);
    }

    method SetTheme(t: Theme)
      modifies this
      ensures theme == t
    {
      theme := t;
    }
  }

  /** `useTheme()`: the provider's value, or the error it throws without one. */
  function UseTheme(context: Option<ThemeProvider>): Result<ThemeProvider, string> {
    UseContext(context, OutsideProvider)
  }
}
