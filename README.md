# Tsumiki workspace overview, modelled in Dafny

This project models the workspace overview of the Tsumiki Hyprland bar (`widgets/overview.py`). The overview is a panel that shows workspaces 1 to 10 in two rows of five. Each workspace slot holds one button per window, drawn at a tenth of the window's size and placed where the window sits on its monitor. Clicking a button focuses its window, a secondary click or Shift+Return closes it, and dropping a button on another workspace moves the window there. To pick each button's icon, the overview resolves the window's class against the desktop-application registry through an identifier map.

The model is split into these modules:

- `Text` (`text.dfy`): ASCII `str.lower`, `endswith`, `split()` and `split("/")[-1]`.
- `Decimal` (`decimal.dfy`): how an f-string writes an `int`, and reading it back.
- `AppIdentity` (`app_identity.dfy`): the app identity resolver. It covers window-class normalization, `_classes_match`, the identifier map and `find_app`'s lookup order. `BuildAppIdentifiersMap` and `NormalizeWindowClass` keep the source's loops and are proved against the recursive definitions `IdentifierMap` and `Normalize`.
- `Commands` (`commands.dfy`): the compositor dispatch commands as a datatype. `Render` gives their exact text. `Parse` reads that text back and serves as the partner for proving round trips.
- `Geometry` (`geometry.dfy`): `SCALE`, the stored transform and size swap, the icon side, and positions relative to a monitor.
- `Icons` (`icons.dfy`): the four-step icon fallback chain and the rescale to a square. The toolkit's loaders and its rescaler are function parameters.
- `Widgets` (`widgets.dfy`): the window button and the workspace drop target, with their event handlers modelled as the command they send.
- `Overview` (`overview.dfy`): the class `OverviewMenu`.
  - Its fields are the registry, the identifier map, the address→button map, the workspace→container map and the two rows.
  - `Update` clears and refills these fields in place, as the source does.
  - The refill is specified by the recursive functions `Buttons`, `Containers` and `Layout`.
  - `OnWorkspace` gives an independent front-to-back definition of what each container holds.

Sizes and positions are exact `real`s, so floating-point rounding is not modelled. `int()` is modelled as truncation toward zero. `%` by 4 agrees with Python's operator for every integer.

Two behaviours of the code are easy to misread:

- **Suffix stripping.** Stripping is not limited to one suffix. The code tries each of `.bin`, `.exe`, `.so`, `-bin`, `-gtk` once, in that order, so `"Foo-gtk.bin"` loses both suffixes (`NormalizeStripsTwoSuffixes`).
- **Suffixed identifiers.** A suffixed identifier resolves like its bare form only when the suffixed form is not itself a key of the identifier map, because the direct lookup comes first (`ResolveSuffixed`).

## Model

| member | source | states |
|---|---|---|
| AppIdentity.NormalizeWindowClass | widgets/overview.py:249-262 | The loop over the suffix list computes `Normalize`: "" for "", otherwise the lowercased class with each suffix removed at most once, in list order |
| AppIdentity.StripAllDecomposes | widgets/overview.py:256-260 | Stripping only ever removes suffixes from the end: the input is the result followed by exactly the suffixes that were removed, in list order |
| AppIdentity.NormalizeIsPrefix | widgets/overview.py:249-262 | A normalized class is a prefix of the lowercased class, and the rest is the removed suffixes |
| AppIdentity.NormalizeIgnoresCase | widgets/overview.py:254 | Normalization is case-insensitive: lowercasing first changes nothing |
| AppIdentity.NormalizeFixesSuffixFree | widgets/overview.py:256-262 | A lowercase class that ends with none of the suffixes is left unchanged |
| AppIdentity.StripAllKeeps | widgets/overview.py:258-260 | A string that ends with none of the listed suffixes survives stripping unchanged |
| AppIdentity.StripSuffixed | widgets/overview.py:257-260 | A suffix-free base followed by any one listed suffix strips back to the base |
| AppIdentity.NormalizeSuffixed | widgets/overview.py:249-262 | A lowercase suffix-free base followed by any listed suffix normalizes to the base |
| AppIdentity.NormalizeStripsTwoSuffixes | widgets/overview.py:257-260 | base + "-gtk" + ".bin" normalizes to base, because ".bin" is tried first and "-gtk" last |
| AppIdentity.NormalizeFollowsListOrder | widgets/overview.py:257-260 | base + ".bin" + "-gtk" normalizes to base + ".bin", because ".bin" has already been tried when "-gtk" comes off |
| AppIdentity.NormalizeStripsEachSuffixOnce | widgets/overview.py:258-260 | base + ".bin" + ".bin" normalizes to base + ".bin": each suffix is removed at most once |
| AppIdentity.ClassesMatchSymmetricAndCaseless | widgets/overview.py:264-274 | Class matching is symmetric and ignores case |
| AppIdentity.ClassesMatchUpToSuffix | widgets/overview.py:264-274 | A class that is a suffix-free base plus a listed suffix, in any case, matches the base |
| AppIdentity.ClassesDiffer | widgets/overview.py:273-278 | Two different lowercase suffix-free classes never match, so no substring matching is done |
| AppIdentity.ClassesMatchExamples | widgets/overview.py:264-278 | "code" does not match "code-oss", and an empty class, on either side, matches no class |
| AppIdentity.AddKeysSpec | widgets/overview.py:286-306 | Writing one app's keys adds exactly those keys, maps them to that app and leaves every other entry as it was |
| AppIdentity.BuildAppIdentifiersMap | widgets/overview.py:280-308 | The loop over the registry computes `IdentifierMap` |
| AppIdentity.IdentifierMapStep | widgets/overview.py:285-306 | One more app adds exactly its own keys and overwrites them; every other entry is unchanged |
| AppIdentity.LastWriterIsLast | widgets/overview.py:285-306 | No app after the last writer of a key has that key |
| AppIdentity.IdentifierMapHasLastWriter | widgets/overview.py:284-308 | A key is in the map exactly when some app writes it |
| AppIdentity.NoLastWriter | widgets/overview.py:285-306 | With no last writer, no app of the registry has the key |
| AppIdentity.IdentifierMapKeys | widgets/overview.py:284-308 | The keys are exactly the lowercased names, display names and window classes, executable basenames and command basenames of the registry's apps |
| AppIdentity.IdentifierMapLastWriter | widgets/overview.py:284-308 | Each key maps to the last app that wrote it: later writes win |
| AppIdentity.AppMatchesIsKey | widgets/overview.py:326-342 | An app passes the fallback scan's comparisons for an identifier exactly when that identifier is one of the app's own map keys |
| AppIdentity.ScanFindsNothing | widgets/overview.py:326-344 | If no app matches, the scan returns None |
| AppIdentity.ScanIsDead | widgets/overview.py:310-344 | With the map built from the registry, `find_app` gives None for "", else the entry of the lowercased identifier, else that of its normalized form, else None: the scan never finds what the map missed |
| AppIdentity.ResolveFromRegistry | widgets/overview.py:310-344 | Any app found is a member of the registry |
| AppIdentity.ResolveIgnoresCase | widgets/overview.py:316 | Resolution does not depend on the identifier's case |
| AppIdentity.ResolveSuffixed | widgets/overview.py:320-323 | An identifier that is a suffix-free base plus a listed suffix resolves like the base, unless the suffixed form is itself a key |
| Commands.ParseFocus | widgets/overview.py:174-175 | The focus command reads back as a focus of the same address |
| Commands.ParseClose | widgets/overview.py:91-95 | The close command reads back as a close of the same address |
| Commands.ParseMove | widgets/overview.py:203-210 | The move command reads back as the same workspace id and the same address |
| Commands.ParseRender | widgets/overview.py:203-210 | Every dispatch command the overview sends reads back as itself |
| Commands.RenderInjective | widgets/overview.py:91-95 | Different commands never produce the same text |
| Decimal.IntToString | widgets/overview.py:209 | The f-string text of an int is non-empty, has no ',' and starts with a digit when the int is non-negative |
| Decimal.NatToString | widgets/overview.py:400 | The text of a natural number is all digits, with no leading zero |
| Decimal.IntToStringRoundTrip | widgets/overview.py:209 | The f-string text of an int reads back as that int |
| Decimal.ParseNatToString | widgets/overview.py:400 | The decimal text of a natural number reads back as that number |
| Geometry.Position | widgets/overview.py:385-389 | A window's position inside its workspace box is never negative |
| Geometry.Truncate | widgets/overview.py:50 | `int()` truncates toward zero: the floor for non-negative numbers, the ceiling for negative ones |
| Geometry.StoredTransform | widgets/overview.py:39 | The kept transform lies in 0..3 and is congruent to the monitor's modulo 4 |
| Geometry.IconSizeIgnoresTransform | widgets/overview.py:39-50 | Swapping width and height never changes the icon side |
| Geometry.FlippedTransformSwaps | widgets/overview.py:39-40 | The swap tests the unreduced transform: 4 is kept as 0 yet still swaps the sides |
| Geometry.IconSizeOfWindow | widgets/overview.py:50 | For a window of w × h pixels the icon side is min(w, h) / 20, rounded down |
| Geometry.PositionIsMonitorRelative | widgets/overview.py:385-389 | Moving a window and its monitor by the same offset leaves its position unchanged |
| Geometry.PositionExamples | widgets/overview.py:387-388 | A window at (100, 200) on a monitor at the origin is drawn at (10, 20), and a window at its monitor's origin at (0, 0) |
| Icons.FoundIconIsFirstCandidate | widgets/overview.py:56-72 | The icon found is the first of the four sources that has one, and nothing is found only when all four have none |
| Icons.ResolvedIconIsSquare | widgets/overview.py:74-83 | With a rescaler that keeps its promise, the icon is a square of the requested side, and an icon that already has that size is kept as found |
| Icons.MissingImageFallback | widgets/overview.py:64-83 | With no desktop entry, no themed icon and no generic icon, the "image missing" icon is the one found; it is shown as found when it has the requested size and rescaled otherwise |
| Widgets.WindowButtonShape | widgets/overview.py:39-53 | A new button keeps its address, title and class. Its transform is reduced modulo 4. Its kept size is the requested one when the transform is 0 or 2 and the quarter turn for every other transform. Its icon side is half the shorter side, and its icon comes from the chain |
| Widgets.ClickFocusesOwnWindow | widgets/overview.py:174-175 | A click sends a focus command for the button's own window |
| Widgets.SecondaryClickClosesOwnWindow | widgets/overview.py:91-95 | A press sends a command exactly for button 3, and that command closes the button's own window |
| Widgets.ShiftActivationClosesOwnWindow | widgets/overview.py:115-125 | A key is consumed exactly when Shift is held with Return, keypad Enter or space. Exactly then a command is sent, and it closes the button's own window |
| Widgets.DropMovesDraggedWindow | widgets/overview.py:203-210 | Dropping a dragged button on a slot moves that button's window, and no other, to the slot's workspace |
| Widgets.DropExample | widgets/overview.py:209 | Window 0x1234 dropped on workspace 3 sends `/dispatch movetoworkspacesilent 3,address:0x1234` |
| Widgets.SlotLabelNamesWorkspace | widgets/overview.py:399-401 | A slot's label is "Workspace " followed by its id, and the id reads back from the label |
| Overview.MonitorMapKeys | widgets/overview.py:363-368 | The monitor map's keys are exactly the monitors' ids |
| Overview.MonitorMapLast | widgets/overview.py:363-368 | An id maps to the origin and transform of the last monitor with that id |
| Overview.ContainerKeys | widgets/overview.py:374-384 | A container exists exactly for each positive workspace id that has a window |
| Overview.ContainerContents | widgets/overview.py:383-389 | A workspace's container holds one placed button per window on it, in list order, as `OnWorkspace` defines independently |
| Overview.ButtonKeys | widgets/overview.py:374-382 | The button map's keys are exactly the addresses of windows on regular workspaces |
| Overview.ButtonOfWindow | widgets/overview.py:375-382 | A window's address maps to that window's button unless a later regular window has the same address |
| Overview.SpecialWorkspaceLeavesNoTrace | widgets/overview.py:373-374 | A window on a workspace with id ≤ 0 gets no container and, if its address is not shared, no button |
| Overview.LayoutUpToShape | widgets/overview.py:392-408 | After w slots are laid out, row 0 holds slots 1, 2, … in order and row 1 holds slots 6, 7, … in order |
| Overview.LayoutShape | widgets/overview.py:391-408 | There are two rows of five slots: workspaces 1 to 5, then 6 to 10 |
| Overview.OnlyFirstTenShown | widgets/overview.py:392 | Every slot shown is for a workspace from 1 to 10, so containers for higher ids are never laid out |
| Overview.SlotShowsItsWindows | widgets/overview.py:402-405 | A slot shows its container exactly when its workspace has a window, and that container holds the workspace's windows in list order; otherwise it shows "+" |
| Overview.OverviewMenu.constructor | widgets/overview.py:224-247 | The first refresh leaves the menu valid, with buttons, containers and rows computed from the registry, monitors and windows |
| Overview.OverviewMenu.FindApp | widgets/overview.py:310-344 | The method with its scan loop returns what `Resolve` specifies |
| Overview.OverviewMenu.Update | widgets/overview.py:346-408 | Nothing from before the refresh survives. The registry, identifier map, buttons, containers and rows are exactly those computed from the inputs |
| Overview.OverviewMenu.AddWindows | widgets/overview.py:370-389 | The loop over the windows leaves exactly `Buttons` and `Containers` of the window list |
| Overview.OverviewMenu.AddWindow | widgets/overview.py:375-389 | One window on a regular workspace adds its button under its address and appends it, placed, to its workspace's container, which is created when missing |
| Overview.OverviewMenu.LayOutWorkspaces | widgets/overview.py:391-408 | The loop over 1..10 builds exactly `Layout` of the containers |

## Left out

- Hyprland IPC and JSON decoding (lines 363-372). The monitor and window lists are inputs, and commands are values whose exact text is `Render`.
- Event subscription (lines 238-245) and `do_update`'s logging (lines 410-412). A refresh is a call to `Update`.
- GTK and Fabric plumbing: drag source and destination setup, the drag icon surface, `show_all`, the `destroy` calls on old widgets, `Overlay`/`Image` construction and `update_image` (lines 127-172). Old widgets are dropped with the maps.
- The drop box's size, which is taken from the screen (line 194).
- The drop payload's UTF-8 decoding (line 209). The payload is the address text.
- `get_desktop_applications`, the icon loaders and `scale_simple`. The registry is a parameter of `Update` and the constructor, and the loaders and rescaler are fields of `IconLookup`.
- Unicode case mapping and whitespace. `Lower` maps ASCII letters only, and `split()` breaks on ASCII whitespace and the four separator controls.
- Floating-point rounding in `SCALE` and `* 0.5`. The model computes with exact reals.
- Overview.OverviewMenu.Update: requires what the source does not check but relies on. Every window on a regular workspace is on a listed monitor, because `monitors[...]` would raise `KeyError`. Every command line has a token, because `split()[0]` would raise `IndexError`. The functions `Buttons` and `Containers` give an unlisted monitor the origin (0, 0, 0), and `Update` never uses that value.
- Overview.ButtonOfWindow: addresses are not assumed unique. When two regular windows share an address, the later button wins, as the dictionary write does.
- `OverviewWidget`, `main.py` and `modules/corners.py` are not part of this model.
