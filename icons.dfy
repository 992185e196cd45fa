/** Choosing the icon of a window button. Four sources are tried in order —
    the desktop entry's own icon, the icon theme under the window's class,
    the generic executable icon, the "image missing" icon — and the first
    one found is rescaled to a square of the requested side when it has
    another size. The icon loaders and the rescaler belong to the toolkit;
    they are parameters here. */
module Icons {
  import opened Wrappers
  import opened AppIdentity

  /** An image: what it shows and its dimensions in pixels. */
  datatype Pixbuf = Pixbuf(source: string, width: int, height: int)

  /** The toolkit services the icon chain calls: the desktop entry's icon
      loader, the icon theme lookup, and the rescaler. Each may fail. */
  datatype IconLookup = IconLookup(
    appIcon: (DesktopApp, int) -> Option<Pixbuf>,
    themeIcon: (string, int) -> Option<Pixbuf>,
    scale: (Pixbuf, int) -> Option<Pixbuf>)

  const EXECUTABLE_ICON: string := "application-x-executable-symbolic"
  const MISSING_ICON: string := "image-missing"

  /** The four sources, in the order they are tried. */
  function Candidates(lookup: IconLookup, app: Option<DesktopApp>, appId: string, size: int): (c: seq<Option<Pixbuf>>)
    ensures |c| == 4
  {
    [ if app.Some? then lookup.appIcon(app.value, size) else None,
      lookup.themeIcon(appId, size),
      lookup.themeIcon(EXECUTABLE_ICON, size),
      lookup.themeIcon(MISSING_ICON, size) ]
  }

  /** The first icon the chain finds, before rescaling. */
  function FoundIcon(lookup: IconLookup, app: Option<DesktopApp>, appId: string, size: int): Option<Pixbuf>
  {
    var fromApp := if app.Some? then lookup.appIcon(app.value, size) else None;
    if fromApp.Some? then fromApp
    else
      var fromTheme := lookup.themeIcon(appId, size);
      if fromTheme.Some? then fromTheme
      else
        var generic := lookup.themeIcon(EXECUTABLE_ICON, size);
        if generic.Some? then generic
        else lookup.themeIcon(MISSING_ICON, size)
  }

  /** The icon a button shows: the first one found, rescaled to
      `size` × `size` unless it already has that size. */
  function ResolveIcon(lookup: IconLookup, app: Option<DesktopApp>, appId: string, size: int): Option<Pixbuf>
  {
    var found := FoundIcon(lookup, app, appId, size);
    if found.Some? && (found.value.width != size || found.value.height != size) then
      lookup.scale(found.value, size)
    else found
  }

  /** The chain takes the first source that has an icon: the icon found is
      candidate `k`, and every candidate before `k` had none. It finds
      nothing exactly when all four have none. */
  lemma FoundIconIsFirstCandidate(lookup: IconLookup, app: Option<DesktopApp>, appId: string, size: int)
    ensures var c := Candidates(lookup, app, appId, size);
      FoundIcon(lookup, app, appId, size).Some? ==>
        exists k :: 0 <= k < 4 && c[k] == FoundIcon(lookup, app, appId, size) &&
          forall j :: 0 <= j < k ==> c[j].None?
    ensures var c := Candidates(lookup, app, appId, size);
      FoundIcon(lookup, app, appId, size).None? <==> forall j :: 0 <= j < 4 ==> c[j].None?
  {
    var c := Candidates(lookup, app, appId, size);
    var found := FoundIcon(lookup, app, appId, size);
    if c[0].Some? {
      assert c[0] == found;
    } else if c[1].Some? {
      assert c[1] == found;
    } else if c[2].Some? {
      assert c[2] == found;
    } else if c[3].Some? {
      assert c[3] == found;
    }
  }

  /** The rescaler keeps its promise: whatever it returns has the side it
      was asked for. */
  ghost predicate ScalesExactly(lookup: IconLookup)
  {
    forall p, n :: lookup.scale(p, n).Some? ==>
      lookup.scale(p, n).value.width == n && lookup.scale(p, n).value.height == n
  }

  /** With a faithful rescaler, a button's icon is always square of the
      requested side; an icon that already has that size is used as found. */
  lemma ResolvedIconIsSquare(lookup: IconLookup, app: Option<DesktopApp>, appId: string, size: int)
    requires ScalesExactly(lookup)
    ensures var icon := ResolveIcon(lookup, app, appId, size);
      icon.Some? ==> icon.value.width == size && icon.value.height == size
    ensures var found := FoundIcon(lookup, app, appId, size);
      (found.Some? && found.value.width == size && found.value.height == size) ==>
        ResolveIcon(lookup, app, appId, size) == found
  {
  }

  /** A window with no desktop entry and no themed icon, on a theme without
      the generic executable icon, shows the "image missing" icon: as found
      when it has the requested size, rescaled otherwise. */
  lemma MissingImageFallback(lookup: IconLookup, appId: string, size: int, missing: Pixbuf)
    requires lookup.themeIcon(appId, size).None?
    requires lookup.themeIcon(EXECUTABLE_ICON, size).None?
    requires lookup.themeIcon(MISSING_ICON, size) == Some(missing)
    ensures FoundIcon(lookup, None, appId, size) == Some(missing)
    ensures ResolveIcon(lookup, None, appId, size)
         == if missing.width == size && missing.height == size then Some(missing) else lookup.scale(missing, size)
  {
  }
}
