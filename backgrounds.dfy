/** The animated background catalogue (src/config/backgrounds.ts): a
    constant table and the lookups by theme. Icons are components and are
    not modelled. */
module Backgrounds {
  import opened Js

  datatype Background = Background(id: string, name: string, className: string, particleCount: int, themes: seq<string>)

  /** The four themes the catalogue knows. */
  const ThemeIds: seq<string> := ["light", "dark", "midnight", "sunset"]

  /** The catalogue, in declaration order. */
  const Catalogue: seq<Background> := [
    Background("sparkles", "Sparkles", "text-primary", 50, ThemeIds),
    Background("star", "Stars", "text-primary", 100, ThemeIds),
    Background("waves", "Waves", "text-primary", 30, ThemeIds),
    Background("sun", "Sunshine", "text-primary", 40, ["light"]),
    Background("cloud-sun", "Sunny Clouds", "text-primary", 35, ["light"]),
    Background("cloud", "Clouds", "text-primary", 25, ["light"]),
    Background("moon", "Moon", "text-primary", 40, ["dark"]),
    Background("moon-star", "Moon & Star", "text-primary", 45, ["dark"]),
    Background("cloud-moon", "Night Clouds", "text-primary", 35, ["dark"]),
    Background("stars-group", "Star Group", "text-primary", 80, ["midnight"]),
    Background("infinity", "Infinity", "text-primary", 45, ["midnight"]),
    Background("sparkle", "Sparkle", "text-primary", 60, ["midnight"]),
    Background("sunset", "Sunset", "text-primary", 40, ["sunset"]),
    Background("sunrise", "Sunrise", "text-primary", 40, ["sunset"]),
    Background("cloud-sun-rain", "Rainy Day", "text-primary", 50, ["sunset"])
  ]

  /** Every entry lists only known themes, and none lists "all". */
  lemma CatalogueThemes()
    ensures forall i | 0 <= i < |Catalogue| :: forall t | t in Catalogue[i].themes :: t in ThemeIds
    ensures forall i | 0 <= i < |Catalogue| :: "all" !in Catalogue[i].themes
  {
  }

  /** `bg.themes.includes(theme) || bg.themes.includes("all")`. */
  predicate Offers(bg: Background, theme: string) {
    theme in bg.themes || "all" in bg.themes
  }

  /** `getBackgroundsForTheme(theme)`: the catalogue entries that offer the
      theme, in catalogue order. */
  function BackgroundsForTheme(theme: string): (r: seq<Background>)
    ensures forall bg :: bg in r <==> bg in Catalogue && Offers(bg, theme)
  {
    Filter(Catalogue, (bg: Background) => Offers(bg, theme))
  }

  /** Since no entry lists "all", the result is exactly the entries that
      list the theme itself. */
  lemma ForThemeExactly(theme: string)
    ensures BackgroundsForTheme(theme) == Filter(Catalogue, Lists(theme))
  {
    CatalogueThemes();
    FilterCongruent(Catalogue, (bg: Background) => Offers(bg, theme), Lists(theme));
  }

  /** `bg.themes.includes(theme)`. */
  function Lists(theme: string): Background -> bool {
    (bg: Background) => theme in bg.themes
  }

  /** The ids of a list of backgrounds (`.map((bg) => bg.id)`). */
  function Ids(bgs: seq<Background>): (r: seq<string>)
    ensures |r| == |bgs| && forall i | 0 <= i < |r| :: r[i] == bgs[i].id
  {
    seq(|bgs|, i requires 0 <= i < |bgs| => bgs[i].id)
  }

  /** The ids of a filter are the ids of the entries that pass it. */
  lemma IdsOfFilter(s: seq<Background>, p: Background -> bool)
    ensures forall x :: x in Ids(Filter(s, p)) <==> exists i | 0 <= i < |s| :: p(s[i]) && s[i].id == x
  {
    forall x | x in Ids(Filter(s, p)) ensures exists i | 0 <= i < |s| :: p(s[i]) && s[i].id == x {
      var i := IdsOfFilterIn(s, p, x);
    }
    forall x | exists i | 0 <= i < |s| :: p(s[i]) && s[i].id == x ensures x in Ids(Filter(s, p)) {
      var i :| 0 <= i < |s| && p(s[i]) && s[i].id == x;
      IdsOfFilterOut(s, p, i);
    }
  }

  /** A listed id belongs to an entry that passes the filter. */
  lemma IdsOfFilterIn(s: seq<Background>, p: Background -> bool, x: string) returns (i: int)
    requires x in Ids(Filter(s, p))
    ensures 0 <= i < |s| && p(s[i]) && s[i].id == x
  {
    var f := Filter(s, p);
    var j :| 0 <= j < |f| && Ids(f)[j] == x;
    assert f[j] in s;
    i :| 0 <= i < |s| && s[i] == f[j];
  }

  /** An entry that passes the filter has its id listed. */
  lemma IdsOfFilterOut(s: seq<Background>, p: Background -> bool, i: int)
    requires 0 <= i < |s| && p(s[i])
    ensures s[i].id in Ids(Filter(s, p))
  {
    var f := Filter(s, p);
    assert s[i] in f;
    var j :| 0 <= j < |f| && f[j] == s[i];
    assert Ids(f)[j] == s[i].id;
  }

  /** An id no entry has is not listed by any filter. */
  lemma IdAbsent(s: seq<Background>, p: Background -> bool, x: string)
    requires forall i | 0 <= i < |s| :: s[i].id != x
    ensures x !in Ids(Filter(s, p))
  {
    if x in Ids(Filter(s, p)) {
      var i := IdsOfFilterIn(s, p, x);
    }
  }

  /** The catalogue's ids, in order. */
  lemma CatalogueIds()
    ensures Ids(Catalogue) == ["sparkles", "star", "waves", "sun", "cloud-sun", "cloud", "moon", "moon-star",
      "cloud-moon", "stars-group", "infinity", "sparkle", "sunset", "sunrise", "cloud-sun-rain"]
  {
  }

  /** `getDefaultBackgroundForTheme(theme)` over the catalogue: a known
      theme gets the first background it offers, which is "sparkles" (it
      offers every theme); an unknown one falls back to "sparkles". */
  function DefaultBackgroundForTheme(theme: string): (r: string)
    ensures theme in ThemeIds ==> |BackgroundsForTheme(theme)| > 0 && r == BackgroundsForTheme(theme)[0].id
    ensures r == "sparkles"
  {
    if theme in ThemeIds then
      assert Offers(Catalogue[0], theme);
      assert BackgroundsForTheme(theme)[0] == Catalogue[0];
      DefaultAmong(Catalogue, theme)
    else
      CatalogueThemes();
      FilterNone(Catalogue, (bg: Background) => Offers(bg, theme));
      DefaultAmong(Catalogue, theme)
  }

  /** The default of a theme among the entries `s`: the id of the first
      entry that offers the theme, or "sparkles" when there is none (or its
      id is empty, hence falsy). */
  function DefaultAmong(s: seq<Background>, theme: string): (r: string)
    ensures (exists i | 0 <= i < |s| :: Offers(s[i], theme)) ==>
              exists i | 0 <= i < |s| :: Offers(s[i], theme) && (r == s[i].id || (s[i].id == "" && r == "sparkles"))
                && forall j | 0 <= j < i :: !Offers(s[j], theme)
    ensures (forall i | 0 <= i < |s| :: !Offers(s[i], theme)) ==> r == "sparkles"
  {
    var list := Filter(s, (bg: Background) => Offers(bg, theme));
    FirstOffer(s, theme);
    assert forall i | 0 <= i < |s| && Offers(s[i], theme) :: s[i] in list;
    if |list| > 0 && list[0].id != "" then list[0].id else "sparkles"
  }

  /** The first element of a filtered catalogue is the first entry that
      offers the theme. */
  lemma {:induction false} FirstOffer(s: seq<Background>, theme: string)
    ensures var r := Filter(s, (bg: Background) => Offers(bg, theme));
      |r| > 0 ==> exists i | 0 <= i < |s| :: s[i] == r[0] && forall j | 0 <= j < i :: !Offers(s[j], theme)
  {
    if s != [] && !Offers(s[0], theme) {
      FirstOffer(s[1..], theme);
      var r := Filter(s[1..], (bg: Background) => Offers(bg, theme));
      if |r| > 0 {
        var i :| 0 <= i < |s[1..]| && s[1..][i] == r[0] && forall j | 0 <= j < i :: !Offers(s[1..][j], theme);
        assert s[i + 1] == r[0];
        forall j | 0 <= j < i + 1 ensures !Offers(s[j], theme) {
          if j > 0 { assert s[j] == s[1..][j - 1]; }
        }
      }
    }
  }

  /** A theme the catalogue does not know gets no backgrounds and the
      "sparkles" default. */
  lemma UnknownThemeDefault(theme: string)
    requires theme !in ThemeIds
    ensures BackgroundsForTheme(theme) == []
    ensures DefaultBackgroundForTheme(theme) == "sparkles"
  {
    CatalogueThemes();
    FilterNone(Catalogue, (bg: Background) => Offers(bg, theme));
  }
}
