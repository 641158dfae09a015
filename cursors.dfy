/** The cursor cache of the client library (src/libwlmatchapp/display.c):
    cursor themes loaded once per theme name and size, and the cursors
    taken from each theme cached by cursor name. Loading a theme and
    looking a cursor up in it are done by libwayland-cursor and enter the
    model as the parameters `load` and `lookup`. */
module Cursors {
  import opened Common
  import opened WlmTypes

  /** The size get_cursor_theme asks for when the caller passes 0. */
  const DEFAULT_CURSOR_SIZE: nat := 24

  function NormalSize(bpp: nat): (size: nat)
    ensures size != 0
    ensures bpp != 0 ==> size == bpp
  {
    if bpp == 0 then DEFAULT_CURSOR_SIZE else bpp
  }

  /** The name test of get_cursor_theme: two NULL names match, a NULL name
      never matches a set one, and set names match when equal. Together the
      three branches are plain equality of optional names. */
  function NameMatches(name: Option<string>, themeName: Option<string>): (r: bool)
    ensures r <==> name == themeName
  {
    if name.None? && themeName.None? then true
    else if name.None? || themeName.None? then false
    else name.value == themeName.value
  }

  /** The lookup of get_cursor_theme as written: the first cached theme
      whose name matches, whatever size it was loaded at. */
  function ThemeByName(themes: seq<CursorTheme>, name: Option<string>): (r: Option<nat>)
    ensures r.Some? ==> r.value < |themes| && themes[r.value].name == name
    ensures r.Some? ==> forall k :: 0 <= k < r.value ==> themes[k].name != name
    ensures r.None? <==> forall k :: 0 <= k < |themes| ==> themes[k].name != name
    decreases |themes|
  {
    if themes == [] then None
    else if NameMatches(name, themes[0].name) then Some(0)
    else
      match ThemeByName(themes[1..], name)
      case None =>
        assert forall k :: 1 <= k < |themes| ==> themes[k] == themes[1..][k - 1];
        None
      case Some(k) =>
        assert forall j :: 1 <= j <= k ==> themes[j] == themes[1..][j - 1];
        Some(k + 1)
  }

  /** As written, a theme cached at one size answers a request for the same
      theme at another size: the cache hands back a theme whose size
      differs from the one asked for, and nothing of that size is loaded. */
  lemma ThemeByNameIgnoresSize(themes: seq<CursorTheme>, name: Option<string>, bpp: nat)
    requires themes != [] && themes[0].name == name && themes[0].bpp != NormalSize(bpp)
    ensures ThemeByName(themes, name) == Some(0)
    ensures themes[ThemeByName(themes, name).value].bpp != NormalSize(bpp)
  {
  }

  /** The lookup keyed by name and size, as the cached size is evidently
      meant to be used: the first cached theme with both. */
  function ThemeFor(themes: seq<CursorTheme>, name: Option<string>, size: nat): (r: Option<nat>)
    ensures r.Some? ==> r.value < |themes| && themes[r.value].name == name && themes[r.value].bpp == size
    ensures r.Some? ==> forall k :: 0 <= k < r.value ==> themes[k].name != name || themes[k].bpp != size
    ensures r.None? <==> forall k :: 0 <= k < |themes| ==> themes[k].name != name || themes[k].bpp != size
    decreases |themes|
  {
    if themes == [] then None
    else if NameMatches(name, themes[0].name) && themes[0].bpp == size then Some(0)
    else
      match ThemeFor(themes[1..], name, size)
      case None =>
        assert forall k :: 1 <= k < |themes| ==> themes[k] == themes[1..][k - 1];
        None
      case Some(k) =>
        assert forall j :: 1 <= j <= k ==> themes[j] == themes[1..][j - 1];
        Some(k + 1)
  }

  /** No two cached themes share a name and a size. */
  predicate ThemeKeysDistinct(themes: seq<CursorTheme>) {
    forall i, j :: 0 <= i < j < |themes| ==> themes[i].name != themes[j].name || themes[i].bpp != themes[j].bpp
  }

  /** Caching a theme only when none with its key is cached keeps the keys
      distinct. */
  lemma CacheThemeKeepsKeysDistinct(t: CursorTheme, themes: seq<CursorTheme>)
    requires ThemeKeysDistinct(themes) && ThemeFor(themes, t.name, t.bpp).None?
    ensures ThemeKeysDistinct([t] + themes)
  {
    var s := [t] + themes;
    forall i, j | 0 <= i < j < |s| ensures s[i].name != s[j].name || s[i].bpp != s[j].bpp {
      assert s[j] == themes[j - 1];
      if i > 0 {
        assert s[i] == themes[i - 1];
      }
    }
  }

  /** get_cursor_theme with the size-aware lookup: a cached theme of the
      requested name and size (0 standing for 24) is returned as is;
      otherwise the theme is loaded, and a loaded theme is cached at the
      head of the list; a failed load gives no theme and caches nothing. */
  method GetCursorTheme(d: Display, name: Option<string>, bpp: nat,
                        load: (Option<string>, nat) -> Option<ThemeHandle>)
    returns (theme: Option<CursorTheme>)
    modifies d`themes
    ensures var size := NormalSize(bpp);
      match ThemeFor(old(d.themes), name, size)
      case Some(k) => theme == Some(old(d.themes)[k]) && d.themes == old(d.themes)
      case None =>
        match load(name, size)
        case None => theme.None? && d.themes == old(d.themes)
        case Some(h) =>
          && theme.Some? && fresh(theme.value) && d.themes == [theme.value] + old(d.themes)
          && theme.value.name == name && theme.value.bpp == size && theme.value.theme == h
          && theme.value.cursors == []
    ensures ThemeKeysDistinct(old(d.themes)) ==> ThemeKeysDistinct(d.themes)
  {
    var size := NormalSize(bpp);
    var i := 0;
    while i < |d.themes|
      invariant 0 <= i <= |d.themes|
      invariant forall k :: 0 <= k < i ==> d.themes[k].name != name || d.themes[k].bpp != size
    {
      var t := d.themes[i];
      if NameMatches(name, t.name) && t.bpp == size {
        return Some(t);
      }
      i := i + 1;
    }
    var handle := load(name, size);
    if handle.None? {
      return None;
    }
    var t := new CursorTheme(name, size, handle.value);
    if ThemeKeysDistinct(d.themes) {
      CacheThemeKeepsKeysDistinct(t, d.themes);
    }
    d.themes := [t] + d.themes;
    return Some(t);
  }

  /** The first cached cursor of the given name. */
  function CursorFor(cursors: seq<CachedCursor>, name: string): (r: Option<nat>)
    ensures r.Some? ==> r.value < |cursors| && cursors[r.value].name == name
    ensures r.Some? ==> forall k :: 0 <= k < r.value ==> cursors[k].name != name
    ensures r.None? <==> forall k :: 0 <= k < |cursors| ==> cursors[k].name != name
    decreases |cursors|
  {
    if cursors == [] then None
    else if cursors[0].name == name then Some(0)
    else
      match CursorFor(cursors[1..], name)
      case None =>
        assert forall k :: 1 <= k < |cursors| ==> cursors[k] == cursors[1..][k - 1];
        None
      case Some(k) =>
        assert forall j :: 1 <= j <= k ==> cursors[j] == cursors[1..][j - 1];
        Some(k + 1)
  }

  /** No cursor name is cached twice in a theme. */
  predicate CursorNamesDistinct(cursors: seq<CachedCursor>) {
    forall i, j :: 0 <= i < j < |cursors| ==> cursors[i].name != cursors[j].name
  }

  /** The cursor part of wlm_display_get_cursor: a cursor cached under the
      name is returned without a new lookup; otherwise the theme is asked,
      and a cursor it has is cached at the head of the theme's list. The
      cache never holds a name twice. */
  method ThemeCursor(theme: CursorTheme, name: string, lookup: (ThemeHandle, string) -> Option<CursorRef>)
    returns (cursor: Option<CursorRef>)
    modifies theme`cursors
    ensures match CursorFor(old(theme.cursors), name)
      case Some(j) => cursor == Some(old(theme.cursors)[j].cursor) && theme.cursors == old(theme.cursors)
      case None =>
        && cursor == lookup(theme.theme, name)
        && theme.cursors == (if cursor.Some? then [CachedCursor(name, cursor.value)] + old(theme.cursors) else old(theme.cursors))
    ensures CursorNamesDistinct(old(theme.cursors)) ==> CursorNamesDistinct(theme.cursors)
    ensures cursor.Some? ==>
      var j := CursorFor(theme.cursors, name);
      j.Some? && theme.cursors[j.value].cursor == cursor.value
  {
    var i := 0;
    while i < |theme.cursors|
      invariant 0 <= i <= |theme.cursors|
      invariant forall k :: 0 <= k < i ==> theme.cursors[k].name != name
    {
      if theme.cursors[i].name == name {
        return Some(theme.cursors[i].cursor);
      }
      i := i + 1;
    }
    cursor := lookup(theme.theme, name);
    if cursor.None? {
      return;
    }
    var cs := [CachedCursor(name, cursor.value)] + theme.cursors;
    forall a, b | 0 <= a < b < |cs| && CursorNamesDistinct(theme.cursors) ensures cs[a].name != cs[b].name {
      assert cs[b] == theme.cursors[b - 1];
      if a > 0 {
        assert cs[a] == theme.cursors[a - 1];
      }
    }
    theme.cursors := cs;
  }

  /** The cursor wlm_display_get_cursor finds: none for a NULL name; from
      the cached theme of that name and size its cached cursor, or else its
      lookup's answer; with no such theme cached, the lookup's answer in the
      theme the load gives, or none when the load fails. */
  function FoundCursor(d: Display, themeName: Option<string>, bpp: nat, name: Option<string>,
                       load: (Option<string>, nat) -> Option<ThemeHandle>,
                       lookup: (ThemeHandle, string) -> Option<CursorRef>): Option<CursorRef>
    reads d, d.themes
  {
    if name.None? then None
    else match ThemeFor(d.themes, themeName, NormalSize(bpp))
      case Some(k) =>
        (match CursorFor(d.themes[k].cursors, name.value)
         case Some(j) => Some(d.themes[k].cursors[j].cursor)
         case None => lookup(d.themes[k].theme, name.value))
      case None =>
        (match load(themeName, NormalSize(bpp))
         case None => None
         case Some(h) => lookup(h, name.value))
  }

  /** wlm_display_get_cursor: a NULL cursor name gives no cursor and
      touches nothing. Otherwise the theme comes from GetCursorTheme; a
      theme that cannot be loaded gives no cursor and caches nothing. From a
      cached theme the cursor comes as ThemeCursor gives it: a cursor cached
      under the name is returned, otherwise the theme's lookup answers and a
      cursor found is cached. A freshly loaded theme is cached at the head
      holding just the cursor its lookup found, if any. No other cached
      theme's cursors change. */
  method GetCursor(d: Display, themeName: Option<string>, bpp: nat, name: Option<string>,
                   load: (Option<string>, nat) -> Option<ThemeHandle>,
                   lookup: (ThemeHandle, string) -> Option<CursorRef>)
    returns (cursor: Option<CursorRef>)
    modifies d`themes, d.themes`cursors
    ensures cursor == old(FoundCursor(d, themeName, bpp, name, load, lookup))
    ensures name.None? ==> cursor.None? && d.themes == old(d.themes)
    ensures forall t :: t in old(d.themes) && (name.None? || ThemeFor(old(d.themes), themeName, NormalSize(bpp)).None? ||
                                               t != old(d.themes)[ThemeFor(old(d.themes), themeName, NormalSize(bpp)).value])
                        ==> t.cursors == old(t.cursors)
    ensures name.Some? && ThemeFor(old(d.themes), themeName, NormalSize(bpp)).Some? ==>
      var th := old(d.themes)[ThemeFor(old(d.themes), themeName, NormalSize(bpp)).value];
      && d.themes == old(d.themes)
      && match CursorFor(old(th.cursors), name.value)
         case Some(j) => cursor == Some(old(th.cursors)[j].cursor) && th.cursors == old(th.cursors)
         case None =>
           && cursor == lookup(th.theme, name.value)
           && th.cursors == (if cursor.Some? then [CachedCursor(name.value, cursor.value)] + old(th.cursors) else old(th.cursors))
    ensures name.Some? && ThemeFor(old(d.themes), themeName, NormalSize(bpp)).None? ==>
      match load(themeName, NormalSize(bpp))
      case None => cursor.None? && d.themes == old(d.themes)
      case Some(h) =>
        && |d.themes| == |old(d.themes)| + 1 && d.themes[1..] == old(d.themes) && fresh(d.themes[0])
        && d.themes[0].name == themeName && d.themes[0].bpp == NormalSize(bpp) && d.themes[0].theme == h
        && cursor == lookup(h, name.value)
        && d.themes[0].cursors == (if cursor.Some? then [CachedCursor(name.value, cursor.value)] else [])
    ensures ThemeKeysDistinct(old(d.themes)) ==> ThemeKeysDistinct(d.themes)
    ensures cursor.Some? ==>
      && name.Some?
      && var k := ThemeFor(d.themes, themeName, NormalSize(bpp));
      && k.Some?
      && var j := CursorFor(d.themes[k.value].cursors, name.value);
      && j.Some? && d.themes[k.value].cursors[j.value].cursor == cursor.value
  {
    if name.None? {
      return None;
    }
    ghost var k := ThemeFor(d.themes, themeName, NormalSize(bpp));
    ghost var themes0 := d.themes;
    var theme := GetCursorTheme(d, themeName, bpp, load);
    if theme.None? {
      assert k.None? && d.themes == themes0;
      return None;
    }
    assert forall t :: t in themes0 ==> t.cursors == old(t.cursors);
    assert k.Some? ==> theme.value == themes0[k.value] && d.themes == themes0;
    assert k.None? ==> theme.value == d.themes[0] && theme.value.cursors == [] && d.themes[1..] == themes0;
    cursor := ThemeCursor(theme.value, name.value, lookup);
  }
}
