/** The colour themes (src/config/themes.ts): a constant record of four
    themes, each with its palette, its UI tuning, its default background
    and the ids of the backgrounds it offers, plus lookups that fall back
    to the light theme. */
module Themes {
  import opened Js
  import opened Backgrounds

  datatype Colors = Colors(
    primary: string, secondary: string, accent: string, background: string, surface: string,
    textPrimary: string, textSecondary: string, border: string,
    error: string, success: string, warning: string)

  datatype Ui = Ui(blurStrength: int, surfaceOpacity: int, shadowStrength: int, animationSpeed: int)

  datatype ThemeConfig = ThemeConfig(
    id: string,
    name: string,
    description: string,
    colors: Colors,
    ui: Ui,
    defaultBackground: string)

  /** `backgrounds.filter((bg) => bg.themes.includes(theme)).map((bg) => bg.id)`. */
  function Listed(theme: string): seq<string> {
    Ids(Filter(Catalogue, Lists(theme)))
  }

  /** A theme's `availableBackgrounds`: each table entry evaluates the
      filter above with its own id. */
  function AvailableBackgrounds(t: ThemeConfig): (r: seq<string>)
    ensures |r| <= |Catalogue|
    ensures forall x :: x in r <==> exists i | 0 <= i < |Catalogue| :: t.id in Catalogue[i].themes && Catalogue[i].id == x
  {
    IdsOfFilter(Catalogue, Lists(t.id));
    Listed(t.id)
  }

  function Light(): ThemeConfig {
    ThemeConfig("light", "Light Theme", "Clean and professional for daily use",
      Colors("#007bff", "#28a745", "#6c757d", "#ffffff", "#f8f9fa", "#212529", "#495057",
             "#ced4da", "#dc3545", "#28a745", "#f59e0b"),
      Ui(12, 95, 5, 300), "sparkles")
  }

  /** The dark theme with the default background the source names. */
  function DarkAsWritten(): ThemeConfig {
    ThemeConfig("dark", "Dark Theme", "Modern and sleek dark mode",
      Colors("#3b82f6", "#10b981", "#60a5fa", "#111827", "#1f2937", "#f9fafb", "#9ca3af",
             "#374151", "#ef4444", "#10b981", "#f59e0b"),
      Ui(16, 90, 8, 300), "stars")
  }

  /** The dark theme defaulting to the catalogue entry named "Stars". */
  function Dark(): ThemeConfig {
    DarkAsWritten().(defaultBackground := "star")
  }

  function Midnight(): ThemeConfig {
    ThemeConfig("midnight", "Midnight Theme", "Deep and rich dark theme",
      Colors("#8b5cf6", "#ec4899", "#a78bfa", "#0f172a", "#1e293b", "#f8fafc", "#94a3b8",
             "#334155", "#ef4444", "#10b981", "#f59e0b"),
      Ui(20, 85, 10, 400), "infinity")
  }

  function Sunset(): ThemeConfig {
    ThemeConfig("sunset", "Sunset Theme", "Warm and vibrant colors",
      Colors("#f59e0b", "#d97706", "#fbbf24", "#fffbeb", "#ffffff", "#78350f", "#92400e",
             "#fde68a", "#dc2626", "#059669", "#f59e0b"),
      Ui(14, 92, 6, 350), "sunset")
  }

  /** The `themes` record, with the dark theme's default background
      corrected to an entry of the catalogue. It holds the four themes of
      the background catalogue, each filed under its own id. */
  function Themes(): (r: map<string, ThemeConfig>)
    ensures forall k :: k in r <==> k in ThemeIds
    ensures forall k | k in r :: r[k].id == k
  {
    map["light" := Light(), "dark" := Dark(), "midnight" := Midnight(), "sunset" := Sunset()]
  }

  /** Each theme offers exactly the catalogue entries that offer it, in
      catalogue order: `availableBackgrounds` agrees with
      `getBackgroundsForTheme`. */
  lemma AvailableMatchesCatalogue(k: string)
    requires k in Themes()
    ensures AvailableBackgrounds(Themes()[k]) == Ids(BackgroundsForTheme(k))
  {
    ForThemeExactly(k);
  }

  /** The dark theme as written defaults to "stars", which no catalogue
      entry has as id, so it is not among the backgrounds it offers. */
  lemma DarkDefaultUnlisted()
    ensures forall i | 0 <= i < |Catalogue| :: Catalogue[i].id != DarkAsWritten().defaultBackground
    ensures DarkAsWritten().defaultBackground !in AvailableBackgrounds(DarkAsWritten())
  {
    CatalogueIds();
    assert "stars" !in Ids(Catalogue);
    forall i | 0 <= i < |Catalogue| ensures Catalogue[i].id != "stars" {
      assert Ids(Catalogue)[i] == Catalogue[i].id;
    }
    IdAbsent(Catalogue, Lists("dark"), "stars");
  }

  /** An entry that lists a theme is among that theme's backgrounds. */
  lemma ListedHas(theme: string, i: int)
    requires 0 <= i < |Catalogue| && theme in Catalogue[i].themes
    ensures Catalogue[i].id in Listed(theme)
  {
    IdsOfFilterOut(Catalogue, Lists(theme), i);
  }

  /** With the correction every theme's default is one of the backgrounds
      it offers. */
  lemma DefaultsAvailable(k: string)
    requires k in Themes()
    ensures Themes()[k].defaultBackground in AvailableBackgrounds(Themes()[k])
  {
    var t := Themes()[k];
    if k == "light" {
      assert t == Light();
      ListedHas("light", 0);
    } else if k == "dark" {
      assert t == Dark();
      ListedHas("dark", 1);
    } else if k == "midnight" {
      assert t == Midnight();
      ListedHas("midnight", 10);
    } else {
      assert t == Sunset();
      ListedHas("sunset", 12);
    }
  }

  /** `getThemeConfig(themeId)`: the theme filed under the id, or the light
      theme. */
  function GetThemeConfig(themeId: string): (r: ThemeConfig)
    ensures themeId in Themes() ==> r == Themes()[themeId] && r.id == themeId
    ensures themeId !in Themes() ==> r == Light()
  {
    if themeId in Themes() then Themes()[themeId] else Light()
  }

  /** `getDefaultUISettings(themeId)`. */
  function GetDefaultUISettings(themeId: string): (r: Ui)
    ensures themeId in Themes() ==> r == Themes()[themeId].ui
    ensures themeId !in ThemeIds ==> r == Ui(12, 95, 5, 300)
  {
    GetThemeConfig(themeId).ui
  }

  /** `getThemeColors(themeId)`. */
  function GetThemeColors(themeId: string): (r: Colors)
    ensures themeId in Themes() ==> r == Themes()[themeId].colors
    ensures themeId !in ThemeIds ==> r == Light().colors
  {
    GetThemeConfig(themeId).colors
  }

  /** `getThemeBackground(themeId)`: always a background the resolved theme
      offers. */
  function GetThemeBackground(themeId: string): (r: string)
    ensures r in AvailableBackgrounds(GetThemeConfig(themeId))
    ensures themeId !in ThemeIds ==> r == "sparkles"
  {
    var k := if themeId in Themes() then themeId else "light";
    DefaultsAvailable(k);
    GetThemeConfig(themeId).defaultBackground
  }
}
