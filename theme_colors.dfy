/**
 The mobile client's two colour palettes and the rule that picks one from the
 platform's colour scheme. Colour values are opaque strings.
 */
module ThemeColors {

  /** The names of the two palettes. */
  datatype ThemeName = Light | Dark

  /** The colour scheme the platform reports: a theme name, `null` or `undefined`. */
  datatype ColorScheme = Named(name: ThemeName) | Null | Undefined

  datatype ThemePalette = ThemePalette(
    background: string,
    foreground: string,
    tabActive: string,
    tabInactive: string,
    tabBarBackground: string,
    tabBorder: string,
    surface: string)

  const LightPalette: ThemePalette := ThemePalette(
    "#FFFFFF", "#1A202C", "#E53E3E", "#A0AEC0", "#F3F4F6", "#E2E8F0", "#FFFFFF")

  const DarkPalette: ThemePalette := ThemePalette(
    "#0F172A", "#E2E8F0", "#F97373", "#64748B", "#111827", "#1F2933", "#0F172A")

  /** The palette table, one entry per theme name. */
  const Palettes: map<ThemeName, ThemePalette> := map[Light := LightPalette, Dark := DarkPalette]

  /** The table is total over theme names. */
  lemma PalettesTotal()
    ensures forall name: ThemeName :: name in Palettes
    ensures Palettes.Values == {LightPalette, DarkPalette}
  {
    forall name: ThemeName ensures name in Palettes {
      if name == Light { assert Light in Palettes; } else { assert Dark in Palettes; }
    }
    assert Palettes[Light] == LightPalette;
    assert Palettes[Dark] == DarkPalette;
  }

  /**
   Picks a palette for any colour scheme: `dark` selects the dark palette,
   and `light`, `null` and `undefined` all fall back to the light one.
   */
  function ResolvePalette(scheme: ColorScheme): (p: ThemePalette)
    ensures p in Palettes.Values
    ensures p == DarkPalette <==> scheme == Named(Dark)
    ensures p == LightPalette <==> scheme != Named(Dark)
  {
    PalettesTotal();
    Palettes[if scheme == Named(Dark) then Dark else Light]
  }

  /** The normalisation the screens apply before resolving: `dark` stays, anything else becomes `light`. */
  function Normalize(scheme: ColorScheme): (name: ThemeName)
    ensures name == Dark <==> scheme == Named(Dark)
  {
    if scheme == Named(Dark) then Dark else Light
  }

  /** Normalising first does not change the palette that is resolved. */
  lemma NormalizeThenResolve(scheme: ColorScheme)
    ensures ResolvePalette(Named(Normalize(scheme))) == ResolvePalette(scheme)
  {
  }

  /** The screens' normalisation is idempotent on theme names. */
  lemma NormalizeNamed(name: ThemeName)
    ensures Normalize(Named(name)) == name
  {
  }

  /** Resolving a theme name gives that name's entry of the table. */
  lemma ResolveNamed(name: ThemeName)
    ensures ResolvePalette(Named(name)) == Palettes[name]
  {
  }

  /** In each palette the surface colour is the background colour. */
  lemma SurfaceIsBackground(name: ThemeName)
    ensures Palettes[name].surface == Palettes[name].background
  {
  }

  /** The two results are told apart by their background alone. */
  lemma BackgroundDistinguishes(scheme: ColorScheme)
    ensures LightPalette.background != DarkPalette.background
    ensures ResolvePalette(scheme).background == DarkPalette.background <==> scheme == Named(Dark)
  {
  }
}
