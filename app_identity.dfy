/** The overview's application-identity resolver: it normalizes window
    classes, indexes every installed desktop application under several
    identifier strings, and resolves a window's initial class to an
    application record. */
module AppIdentity {
  import opened Wrappers
  import opened Text

  /** One installed application as the desktop registry reports it. A field
      the registry leaves unset (`None` or empty) is "". `icon` stands for
      the icon handle the record carries. */
  datatype DesktopApp = DesktopApp(
    name: string,
    displayName: string,
    windowClass: string,
    executable: string,
    commandLine: string,
    icon: string)

  /** `command_line.split()[0]` needs a token; a set command line that is
      only whitespace would make the source raise, and the registry is
      assumed never to report one. */
  predicate ValidApp(app: DesktopApp)
  {
    app.commandLine != "" ==> HasToken(app.commandLine)
  }

  predicate ValidApps(apps: seq<DesktopApp>)
  {
    forall i :: 0 <= i < |apps| ==> ValidApp(apps[i])
  }

  // ---------------------------------------------------------------------
  // Window-class normalization
  // ---------------------------------------------------------------------

  /** The suffixes stripped from a lowercased window class, in the order
      they are tried. */
  const SUFFIXES: seq<string> := [".bin", ".exe", ".so", "-bin", "-gtk"]

  /** Removes `t` once from the end of `s` when `s` ends with it. */
  function StripSuffix(s: string, t: string): string
  {
    if EndsWith(s, t) then s[..|s| - |t|] else s
  }

  /** Tries each of `suffixes` in turn on the result of the previous ones. */
  function StripAll(s: string, suffixes: seq<string>): string
  {
    if suffixes == [] then s
    else StripSuffix(StripAll(s, suffixes[..|suffixes| - 1]), suffixes[|suffixes| - 1])
  }

  /** What `_normalize_window_class` returns: "" for an empty class, and
      otherwise the lowercased class with each of SUFFIXES removed at most
      once, in order. */
  function Normalize(className: string): string
  {
    if className == "" then "" else StripAll(Lower(className), SUFFIXES)
  }

  method NormalizeWindowClass(className: string) returns (normalized: string)
    ensures normalized == Normalize(className)
  {
    if className == "" {
      return "";
    }
    normalized := Lower(className);
    var suffixes := SUFFIXES;
    for i := 0 to |suffixes|
      invariant normalized == StripAll(Lower(className), suffixes[..i])
    {
      var suffix := suffixes[i];
      assert suffixes[..i + 1][..i] == suffixes[..i];
      if EndsWith(normalized, suffix) {
        normalized := normalized[..|normalized| - |suffix|];
      }
    }
    assert suffixes[..|suffixes|] == SUFFIXES;
  }

  /** Which of `suffixes` StripAll removed from `s`. */
  function StripMask(s: string, suffixes: seq<string>): (mask: seq<bool>)
    ensures |mask| == |suffixes|
  {
    if suffixes == [] then []
    else
      var init := suffixes[..|suffixes| - 1];
      StripMask(s, init) + [EndsWith(StripAll(s, init), suffixes[|suffixes| - 1])]
  }

  /** The removed suffixes as they sit in the string: the one tried last is
      innermost, the one tried first is at the very end. */
  function Picked(suffixes: seq<string>, mask: seq<bool>): string
    requires |mask| == |suffixes|
  {
    if suffixes == [] then ""
    else
      var n := |suffixes| - 1;
      (if mask[n] then suffixes[n] else "") + Picked(suffixes[..n], mask[..n])
  }

  /** StripAll removes only whole suffixes from the end, each at most once
      and in the given order: the input is the result followed by the
      removed suffixes. */
  lemma {:induction false} StripAllDecomposes(s: string, suffixes: seq<string>)
    ensures s == StripAll(s, suffixes) + Picked(suffixes, StripMask(s, suffixes))
  {
    if suffixes != [] {
      var n := |suffixes| - 1;
      var init := suffixes[..n];
      StripAllDecomposes(s, init);
      var before := StripAll(s, init);
      var mask := StripMask(s, suffixes);
      assert mask[..n] == StripMask(s, init);
      if EndsWith(before, suffixes[n]) {
        assert before == before[..|before| - |suffixes[n]|] + suffixes[n];
      }
    }
  }

  /** A non-empty class normalizes to a prefix of its lowercased form; what
      was cut off is a selection of SUFFIXES, each at most once. */
  lemma NormalizeIsPrefix(className: string)
    requires className != ""
    ensures StartsWith(Lower(className), Normalize(className))
    ensures Lower(className)
         == Normalize(className) + Picked(SUFFIXES, StripMask(Lower(className), SUFFIXES))
  {
    StripAllDecomposes(Lower(className), SUFFIXES);
  }

  /** Normalization ignores case. */
  lemma NormalizeIgnoresCase(className: string)
    ensures Normalize(Lower(className)) == Normalize(className)
  {
    LowerIsLower(className);
  }

  /** No suffix of SUFFIXES ends `s`. */
  predicate SuffixFree(s: string)
  {
    forall t :: t in SUFFIXES ==> !EndsWith(s, t)
  }

  lemma {:induction false} StripAllKeeps(s: string, suffixes: seq<string>)
    requires forall t :: t in suffixes ==> !EndsWith(s, t)
    ensures StripAll(s, suffixes) == s
  {
    if suffixes != [] {
      StripAllKeeps(s, suffixes[..|suffixes| - 1]);
    }
  }

  /** A lowercase class without a known suffix is its own normal form. */
  lemma NormalizeFixesSuffixFree(base: string)
    requires IsLower(base) && SuffixFree(base)
    ensures Normalize(base) == base
  {
    LowerOfLower(base);
    StripAllKeeps(base, SUFFIXES);
  }

  lemma StripAllStep(s: string, suffixes: seq<string>, k: int)
    requires 0 <= k < |suffixes|
    ensures StripAll(s, suffixes[..k + 1]) == StripSuffix(StripAll(s, suffixes[..k]), suffixes[k])
  {
    assert suffixes[..k + 1][..k] == suffixes[..k];
  }

  /** A string whose last character differs from that of `t` does not end
      with `t`. */
  lemma LastCharDiffers(s: string, t: string)
    requires s != [] && t != [] && s[|s| - 1] != t[|t| - 1]
    ensures !EndsWith(s, t) && StripSuffix(s, t) == s
  {
    if |t| <= |s| {
      assert s[|s| - |t|..][|t| - 1] != t[|t| - 1];
    }
  }

  lemma StripAppended(base: string, t: string)
    ensures StripSuffix(base + t, t) == base
  {
    assert (base + t)[|base|..] == t;
    assert (base + t)[..|base|] == base;
  }

  /** The five stripping steps, spelled out. */
  lemma StripAllSuffixes(s: string)
    ensures StripAll(s, SUFFIXES)
         == StripSuffix(StripSuffix(StripSuffix(StripSuffix(StripSuffix(
              s, ".bin"), ".exe"), ".so"), "-bin"), "-gtk")
  {
    assert SUFFIXES[..0] == [];
    assert SUFFIXES[..5] == SUFFIXES;
    StripAllStep(s, SUFFIXES, 0);
    StripAllStep(s, SUFFIXES, 1);
    StripAllStep(s, SUFFIXES, 2);
    StripAllStep(s, SUFFIXES, 3);
    StripAllStep(s, SUFFIXES, 4);
  }

  /** Stripping the suffixes after `k` leaves a suffix-free string alone. */
  lemma StripRestKeeps(base: string)
    requires SuffixFree(base)
    ensures StripSuffix(base, ".exe") == base && StripSuffix(base, ".so") == base
    ensures StripSuffix(base, "-bin") == base && StripSuffix(base, "-gtk") == base
  {
    assert ".exe" in SUFFIXES && ".so" in SUFFIXES && "-bin" in SUFFIXES && "-gtk" in SUFFIXES;
  }

  lemma StripSuffixedBin(base: string)
    requires SuffixFree(base)
    ensures StripAll(base + ".bin", SUFFIXES) == base
  {
    var s := base + ".bin";
    StripAllSuffixes(s);
    StripAppended(base, ".bin");
    StripRestKeeps(base);
    assert StripSuffix(s, ".bin") == base;
  }

  lemma StripSuffixedExe(base: string)
    requires SuffixFree(base)
    ensures StripAll(base + ".exe", SUFFIXES) == base
  {
    var s := base + ".exe";
    StripAllSuffixes(s);
    StripAppended(base, ".exe");
    StripRestKeeps(base);
    LastCharDiffers(s, ".bin");
    assert StripSuffix(StripSuffix(s, ".bin"), ".exe") == base;
  }

  lemma StripSuffixedSo(base: string)
    requires SuffixFree(base)
    ensures StripAll(base + ".so", SUFFIXES) == base
  {
    var s := base + ".so";
    StripAllSuffixes(s);
    StripAppended(base, ".so");
    StripRestKeeps(base);
    LastCharDiffers(s, ".bin");
    LastCharDiffers(s, ".exe");
    assert StripSuffix(StripSuffix(StripSuffix(s, ".bin"), ".exe"), ".so") == base;
  }

  lemma StripSuffixedDashBin(base: string)
    requires SuffixFree(base)
    ensures StripAll(base + "-bin", SUFFIXES) == base
  {
    var s := base + "-bin";
    StripAllSuffixes(s);
    StripAppended(base, "-bin");
    StripRestKeeps(base);
    assert s[|s| - 4..] == "-bin";
    assert !EndsWith(s, ".bin");
    LastCharDiffers(s, ".exe");
    LastCharDiffers(s, ".so");
    assert StripSuffix(StripSuffix(StripSuffix(StripSuffix(s, ".bin"), ".exe"), ".so"), "-bin")
        == base;
  }

  lemma StripSuffixedDashGtk(base: string)
    requires SuffixFree(base)
    ensures StripAll(base + "-gtk", SUFFIXES) == base
  {
    var s := base + "-gtk";
    StripAllSuffixes(s);
    StripAppended(base, "-gtk");
    StripRestKeeps(base);
    LastCharDiffers(s, ".bin");
    LastCharDiffers(s, ".exe");
    LastCharDiffers(s, ".so");
    LastCharDiffers(s, "-bin");
    assert StripSuffix(StripSuffix(StripSuffix(StripSuffix(s, ".bin"), ".exe"), ".so"), "-bin")
        == s;
  }

  lemma StripSuffixed(base: string, suffix: string)
    requires SuffixFree(base)
    requires suffix in SUFFIXES
    ensures StripAll(base + suffix, SUFFIXES) == base
  {
    if suffix == ".bin" {
      StripSuffixedBin(base);
    } else if suffix == ".exe" {
      StripSuffixedExe(base);
    } else if suffix == ".so" {
      StripSuffixedSo(base);
    } else if suffix == "-bin" {
      StripSuffixedDashBin(base);
    } else {
      StripSuffixedDashGtk(base);
    }
  }

  /** One known suffix appended to a lowercase, suffix-free base is removed
      again by normalization, whichever suffix it is. */
  lemma NormalizeSuffixed(base: string, suffix: string)
    requires IsLower(base) && SuffixFree(base)
    requires suffix in SUFFIXES
    ensures Normalize(base + suffix) == base
  {
    SuffixesAreLower();
    IsLowerAppend(base, suffix);
    LowerOfLower(base + suffix);
    StripSuffixed(base, suffix);
  }

  lemma SuffixesAreLower()
    ensures forall t :: t in SUFFIXES ==> IsLower(t)
    ensures IsLower(".bin") && IsLower("-gtk")
  {
    assert IsLower(".bin") && IsLower(".exe") && IsLower(".so") && IsLower("-bin") && IsLower("-gtk");
  }

  /** Suffixes are tried in list order: "-gtk" then ".bin" both come off,
      because ".bin" is tried first. */
  lemma NormalizeStripsTwoSuffixes(base: string)
    requires IsLower(base) && SuffixFree(base)
    ensures Normalize(base + "-gtk" + ".bin") == base
  {
    var t := base + "-gtk";
    var s := t + ".bin";
    SuffixesAreLower();
    IsLowerAppend(base, "-gtk");
    IsLowerAppend(t, ".bin");
    LowerOfLower(s);
    StripAllSuffixes(s);
    StripAppended(t, ".bin");
    LastCharDiffers(t, ".exe");
    LastCharDiffers(t, ".so");
    LastCharDiffers(t, "-bin");
    StripAppended(base, "-gtk");
  }

  /** In the other order only "-gtk" comes off: ".bin" was tried, and did
      not match, before "-gtk" was removed. */
  lemma NormalizeFollowsListOrder(base: string)
    requires IsLower(base) && SuffixFree(base)
    ensures Normalize(base + ".bin" + "-gtk") == base + ".bin"
  {
    var t := base + ".bin";
    var s := t + "-gtk";
    SuffixesAreLower();
    IsLowerAppend(base, ".bin");
    IsLowerAppend(t, "-gtk");
    LowerOfLower(s);
    StripAllSuffixes(s);
    LastCharDiffers(s, ".bin");
    LastCharDiffers(s, ".exe");
    LastCharDiffers(s, ".so");
    LastCharDiffers(s, "-bin");
    StripAppended(t, "-gtk");
  }

  /** Each suffix is removed at most once: a doubled ".bin" loses one. */
  lemma NormalizeStripsEachSuffixOnce(base: string)
    requires IsLower(base) && SuffixFree(base)
    ensures Normalize(base + ".bin" + ".bin") == base + ".bin"
  {
    var t := base + ".bin";
    var s := t + ".bin";
    SuffixesAreLower();
    IsLowerAppend(base, ".bin");
    IsLowerAppend(t, ".bin");
    LowerOfLower(s);
    StripAllSuffixes(s);
    StripAppended(t, ".bin");
    LastCharDiffers(t, ".exe");
    LastCharDiffers(t, ".so");
    LastCharDiffers(t, "-gtk");
    assert !EndsWith(t, "-bin") by {
      assert t[|t| - 4..] == ".bin";
    }
  }

  // ---------------------------------------------------------------------
  // Class comparison
  // ---------------------------------------------------------------------

  /** `_classes_match`: both classes set and equal once normalized. */
  predicate ClassesMatch(class1: string, class2: string)
  {
    class1 != "" && class2 != "" && Normalize(class1) == Normalize(class2)
  }

  /** Matching is symmetric and ignores case on either side. */
  lemma ClassesMatchSymmetricAndCaseless(class1: string, class2: string)
    ensures ClassesMatch(class1, class2) == ClassesMatch(class2, class1)
    ensures ClassesMatch(Lower(class1), class2) == ClassesMatch(class1, class2)
  {
    NormalizeIgnoresCase(class1);
  }

  /** A class that is a base plus one known suffix, in any case, matches
      the bare base. */
  lemma ClassesMatchUpToSuffix(class1: string, base: string, suffix: string)
    requires IsLower(base) && SuffixFree(base) && base != ""
    requires suffix in SUFFIXES && Lower(class1) == base + suffix
    ensures ClassesMatch(class1, base)
  {
    NormalizeIgnoresCase(class1);
    NormalizeSuffixed(base, suffix);
    NormalizeFixesSuffixFree(base);
  }

  /** Two different lowercase classes without known suffixes never match,
      even when one contains the other. */
  lemma ClassesDiffer(class1: string, class2: string)
    requires IsLower(class1) && SuffixFree(class1) && IsLower(class2) && SuffixFree(class2)
    requires class1 != class2
    ensures !ClassesMatch(class1, class2)
  {
    NormalizeFixesSuffixFree(class1);
    NormalizeFixesSuffixFree(class2);
  }

  lemma CodeIsSuffixFree()
    ensures IsLower("code") && SuffixFree("code")
  {
    LastCharDiffers("code", ".bin");
    assert "code"[0] != ".exe"[0];
    LastCharDiffers("code", ".so");
    LastCharDiffers("code", "-bin");
    LastCharDiffers("code", "-gtk");
  }

  lemma CodeOssIsSuffixFree()
    ensures IsLower("code-oss") && SuffixFree("code-oss")
  {
    LastCharDiffers("code-oss", ".bin");
    LastCharDiffers("code-oss", ".exe");
    LastCharDiffers("code-oss", ".so");
    LastCharDiffers("code-oss", "-bin");
    LastCharDiffers("code-oss", "-gtk");
  }

  /** "code" and "code-oss" are different applications; an unset class,
      on either side, matches nothing. */
  lemma ClassesMatchExamples()
    ensures !ClassesMatch("code", "code-oss")
    ensures forall c :: !ClassesMatch("", c) && !ClassesMatch(c, "")
  {
    CodeIsSuffixFree();
    CodeOssIsSuffixFree();
    ClassesDiffer("code", "code-oss");
  }

  // ---------------------------------------------------------------------
  // The identifier map
  // ---------------------------------------------------------------------

  /** `executable.split("/")[-1].lower()`. */
  function ExecutableKey(executable: string): string
  {
    Lower(LastSegment(executable))
  }

  /** `command_line.split()[0].split("/")[-1].lower()`. */
  function CommandKey(commandLine: string): string
    requires HasToken(commandLine)
  {
    Lower(LastSegment(FirstToken(commandLine)))
  }

  /** The keys `_build_app_identifiers_map` writes for one application, in
      the order it writes them: name, display name, window class,
      executable basename, command basename, each only when the field is
      set. */
  function KeyList(app: DesktopApp): seq<string>
    requires ValidApp(app)
  {
    (if app.name != "" then [Lower(app.name)] else [])
    + (if app.displayName != "" then [Lower(app.displayName)] else [])
    + (if app.windowClass != "" then [Lower(app.windowClass)] else [])
    + (if app.executable != "" then [ExecutableKey(app.executable)] else [])
    + (if app.commandLine != "" then [CommandKey(app.commandLine)] else [])
  }

  /** Writes `app` under each of `keys` in turn. */
  function AddKeys(identifiers: map<string, DesktopApp>, keys: seq<string>, app: DesktopApp): map<string, DesktopApp>
  {
    if keys == [] then identifiers
    else AddKeys(identifiers, keys[..|keys| - 1], app)[keys[|keys| - 1] := app]
  }

  lemma {:induction false} AddKeysSpec(identifiers: map<string, DesktopApp>, keys: seq<string>,
                                       app: DesktopApp, key: string)
    ensures key in AddKeys(identifiers, keys, app) <==> key in identifiers || key in keys
    ensures key in keys ==> AddKeys(identifiers, keys, app)[key] == app
    ensures key !in keys && key in identifiers
        ==> AddKeys(identifiers, keys, app)[key] == identifiers[key]
  {
    if keys != [] {
      var init := keys[..|keys| - 1];
      AddKeysSpec(identifiers, init, app, key);
      assert keys == init + [keys[|keys| - 1]];
    }
  }

  /** Writing at most one more key is one more map update. */
  lemma AddKeysSnoc(identifiers: map<string, DesktopApp>, keys: seq<string>, extra: seq<string>,
                    app: DesktopApp)
    requires |extra| <= 1
    ensures AddKeys(identifiers, keys + extra, app)
         == if extra == [] then AddKeys(identifiers, keys, app)
            else AddKeys(identifiers, keys, app)[extra[0] := app]
  {
    if extra == [] {
      assert keys + extra == keys;
    } else {
      assert (keys + extra)[..|keys|] == keys;
    }
  }

  /** The map `_build_app_identifiers_map` returns: applications are taken
      in registry order and each writes all its keys, so a later
      application overwrites an earlier one on a shared key. */
  function IdentifierMap(apps: seq<DesktopApp>): map<string, DesktopApp>
    requires ValidApps(apps)
  {
    if apps == [] then map[]
    else
      var last := apps[|apps| - 1];
      AddKeys(IdentifierMap(apps[..|apps| - 1]), KeyList(last), last)
  }

  /** The map of the first i + 1 applications is that of the first i with
      application i's keys written on top. */
  lemma IdentifierMapPrefix(apps: seq<DesktopApp>, i: int)
    requires ValidApps(apps) && 0 <= i < |apps|
    ensures ValidApps(apps[..i]) && ValidApps(apps[..i + 1]) && ValidApp(apps[i])
    ensures IdentifierMap(apps[..i + 1]) == AddKeys(IdentifierMap(apps[..i]), KeyList(apps[i]), apps[i])
  {
    assert apps[i] in apps;
    assert apps[..i + 1][..i] == apps[..i];
  }

  method BuildAppIdentifiersMap(apps: seq<DesktopApp>) returns (identifiers: map<string, DesktopApp>)
    requires ValidApps(apps)
    ensures identifiers == IdentifierMap(apps)
  {
    identifiers := map[];
    for i := 0 to |apps|
      invariant identifiers == IdentifierMap(apps[..i])
    {
      var app := apps[i];
      IdentifierMapPrefix(apps, i);
      ghost var before := identifiers;
      // The keys of KeyList(app), one field at a time.
      ghost var a := if app.name != "" then [Lower(app.name)] else [];
      ghost var b := if app.displayName != "" then [Lower(app.displayName)] else [];
      ghost var c := if app.windowClass != "" then [Lower(app.windowClass)] else [];
      ghost var d := if app.executable != "" then [ExecutableKey(app.executable)] else [];
      ghost var e := if app.commandLine != "" then [CommandKey(app.commandLine)] else [];
      assert KeyList(app) == a + b + c + d + e;
      AddKeysSnoc(before, [], a, app);
      assert [] + a == a;
      if app.name != "" {
        identifiers := identifiers[Lower(app.name) := app];
      }
      assert identifiers == AddKeys(before, a, app);
      AddKeysSnoc(before, a, b, app);
      if app.displayName != "" {
        identifiers := identifiers[Lower(app.displayName) := app];
      }
      assert identifiers == AddKeys(before, a + b, app);
      AddKeysSnoc(before, a + b, c, app);
      if app.windowClass != "" {
        identifiers := identifiers[Lower(app.windowClass) := app];
      }
      assert identifiers == AddKeys(before, a + b + c, app);
      AddKeysSnoc(before, a + b + c, d, app);
      if app.executable != "" {
        var exeBasename := Lower(LastSegment(app.executable));
        identifiers := identifiers[exeBasename := app];
      }
      assert identifiers == AddKeys(before, a + b + c + d, app);
      AddKeysSnoc(before, a + b + c + d, e, app);
      if app.commandLine != "" {
        var cmdBase := Lower(LastSegment(FirstToken(app.commandLine)));
        identifiers := identifiers[cmdBase := app];
      }
      assert identifiers == AddKeys(before, a + b + c + d + e, app);
    }
    assert apps[..|apps|] == apps;
  }

  /** The per-application test of `find_app`'s fallback scan, against an
      already lowercased identifier. */
  predicate AppMatches(app: DesktopApp, normalizedId: string)
    requires ValidApp(app)
  {
    || (app.name != "" && Lower(app.name) == normalizedId)
    || (app.windowClass != "" && Lower(app.windowClass) == normalizedId)
    || (app.displayName != "" && Lower(app.displayName) == normalizedId)
    || (app.executable != "" && ExecutableKey(app.executable) == normalizedId)
    || (app.commandLine != "" && CommandKey(app.commandLine) == normalizedId)
  }

  /** Each comparison of the scan is a key the map builder inserted. */
  lemma {:induction false} AppMatchesIsKey(app: DesktopApp, normalizedId: string)
    requires ValidApp(app)
    ensures AppMatches(app, normalizedId) <==> normalizedId in KeyList(app)
  {
    var a := if app.name != "" then [Lower(app.name)] else [];
    var b := if app.displayName != "" then [Lower(app.displayName)] else [];
    var c := if app.windowClass != "" then [Lower(app.windowClass)] else [];
    var d := if app.executable != "" then [ExecutableKey(app.executable)] else [];
    var e := if app.commandLine != "" then [CommandKey(app.commandLine)] else [];
    assert KeyList(app) == a + b + c + d + e;
    assert normalizedId in KeyList(app) <==>
      (normalizedId in a || normalizedId in b || normalizedId in c || normalizedId in d || normalizedId in e);
  }

  /** One step of the map's construction: the last application adds its
      keys, mapped to itself, on top of the map of the others. */
  lemma IdentifierMapStep(apps: seq<DesktopApp>, key: string)
    requires ValidApps(apps) && apps != []
    ensures ValidApps(apps[..|apps| - 1])
    ensures key in IdentifierMap(apps)
        <==> key in IdentifierMap(apps[..|apps| - 1]) || AppMatches(apps[|apps| - 1], key)
    ensures AppMatches(apps[|apps| - 1], key) ==> IdentifierMap(apps)[key] == apps[|apps| - 1]
    ensures !AppMatches(apps[|apps| - 1], key) && key in IdentifierMap(apps)
        ==> IdentifierMap(apps)[key] == IdentifierMap(apps[..|apps| - 1])[key]
  {
    var last := apps[|apps| - 1];
    AddKeysSpec(IdentifierMap(apps[..|apps| - 1]), KeyList(last), last, key);
    AppMatchesIsKey(last, key);
  }

  /** The index of the last application that has `key`, or -1. */
  function LastWriter(apps: seq<DesktopApp>, key: string): (j: int)
    requires ValidApps(apps)
    ensures -1 <= j < |apps|
    ensures j >= 0 ==> AppMatches(apps[j], key)
  {
    if apps == [] then -1
    else if AppMatches(apps[|apps| - 1], key) then |apps| - 1
    else LastWriter(apps[..|apps| - 1], key)
  }

  lemma {:induction false} LastWriterIsLast(apps: seq<DesktopApp>, key: string, later: int)
    requires ValidApps(apps)
    requires LastWriter(apps, key) < later < |apps|
    ensures !AppMatches(apps[later], key)
  {
    var n := |apps| - 1;
    var prefix := apps[..n];
    assert !AppMatches(apps[n], key);
    assert LastWriter(apps, key) == LastWriter(prefix, key);
    if later < n {
      LastWriterIsLast(prefix, key, later);
      assert prefix[later] == apps[later];
    }
  }

  /** A key is in the map exactly when some application has it. */
  lemma {:induction false} IdentifierMapHasLastWriter(apps: seq<DesktopApp>, key: string)
    requires ValidApps(apps)
    ensures key in IdentifierMap(apps) <==> LastWriter(apps, key) >= 0
  {
    if apps != [] {
      IdentifierMapStep(apps, key);
      IdentifierMapHasLastWriter(apps[..|apps| - 1], key);
    }
  }

  lemma {:induction false} NoLastWriter(apps: seq<DesktopApp>, key: string)
    requires ValidApps(apps) && LastWriter(apps, key) < 0
    ensures forall j :: 0 <= j < |apps| ==> !AppMatches(apps[j], key)
  {
    if apps != [] {
      var n := |apps| - 1;
      NoLastWriter(apps[..n], key);
      forall j | 0 <= j < n
        ensures !AppMatches(apps[j], key)
      {
        assert apps[..n][j] == apps[j];
      }
    }
  }

  /** The keys of the map are exactly the keys of the applications. */
  lemma IdentifierMapKeys(apps: seq<DesktopApp>, key: string)
    requires ValidApps(apps)
    ensures key in IdentifierMap(apps)
        <==> exists j :: 0 <= j < |apps| && AppMatches(apps[j], key)
  {
    IdentifierMapHasLastWriter(apps, key);
    if LastWriter(apps, key) < 0 {
      NoLastWriter(apps, key);
    }
  }

  lemma {:induction false} IdentifierMapLastWriter(apps: seq<DesktopApp>, key: string)
    requires ValidApps(apps)
    requires key in IdentifierMap(apps)
    ensures 0 <= LastWriter(apps, key) && IdentifierMap(apps)[key] == apps[LastWriter(apps, key)]
  {
    var n := |apps| - 1;
    IdentifierMapStep(apps, key);
    if !AppMatches(apps[n], key) {
      IdentifierMapLastWriter(apps[..n], key);
      assert apps[..n][LastWriter(apps[..n], key)] == apps[LastWriter(apps[..n], key)];
    }
  }

  // ---------------------------------------------------------------------
  // Resolution
  // ---------------------------------------------------------------------

  /** The fallback scan: the first application in registry order that
      matches. */
  function Scan(apps: seq<DesktopApp>, normalizedId: string): Option<DesktopApp>
    requires ValidApps(apps)
  {
    if apps == [] then None
    else if AppMatches(apps[0], normalizedId) then Some(apps[0])
    else Scan(apps[1..], normalizedId)
  }

  /** What `find_app` returns for `appIdentifier`, given the registry and
      the identifier map built from it: "" resolves to nothing; then the
      lowercased identifier is looked up, then its normalized form, and
      last the registry is scanned. */
  function Resolve(apps: seq<DesktopApp>, identifiers: map<string, DesktopApp>, appIdentifier: string): Option<DesktopApp>
    requires ValidApps(apps)
  {
    if appIdentifier == "" then None
    else
      var normalizedId := Lower(appIdentifier);
      if normalizedId in identifiers then Some(identifiers[normalizedId])
      else
        var normId := Normalize(normalizedId);
        if normId in identifiers then Some(identifiers[normId])
        else Scan(apps, normalizedId)
  }

  lemma {:induction false} ScanFindsNothing(apps: seq<DesktopApp>, normalizedId: string)
    requires ValidApps(apps)
    requires forall j :: 0 <= j < |apps| ==> !AppMatches(apps[j], normalizedId)
    ensures Scan(apps, normalizedId) == None
  {
    if apps != [] {
      assert !AppMatches(apps[0], normalizedId);
      forall j | 0 <= j < |apps[1..]|
        ensures !AppMatches(apps[1..][j], normalizedId)
      {
        assert apps[1..][j] == apps[j + 1];
      }
      ScanFindsNothing(apps[1..], normalizedId);
    }
  }

  /** The fallback scan can never succeed where the map lookup missed, so
      with the map built from the registry, resolution is just the two map
      lookups. */
  lemma ScanIsDead(apps: seq<DesktopApp>, appIdentifier: string)
    requires ValidApps(apps)
    ensures Resolve(apps, IdentifierMap(apps), appIdentifier)
         == if appIdentifier == "" then None
            else if Lower(appIdentifier) in IdentifierMap(apps) then
              Some(IdentifierMap(apps)[Lower(appIdentifier)])
            else if Normalize(Lower(appIdentifier)) in IdentifierMap(apps) then
              Some(IdentifierMap(apps)[Normalize(Lower(appIdentifier))])
            else None
  {
    var normalizedId := Lower(appIdentifier);
    if appIdentifier != "" && normalizedId !in IdentifierMap(apps) {
      IdentifierMapKeys(apps, normalizedId);
      ScanFindsNothing(apps, normalizedId);
    }
  }

  /** A resolved application comes from the registry. */
  lemma ResolveFromRegistry(apps: seq<DesktopApp>, appIdentifier: string)
    requires ValidApps(apps)
    ensures Resolve(apps, IdentifierMap(apps), appIdentifier).Some?
        ==> Resolve(apps, IdentifierMap(apps), appIdentifier).value in apps
  {
    ScanIsDead(apps, appIdentifier);
    var normalizedId := Lower(appIdentifier);
    if appIdentifier != "" {
      if normalizedId in IdentifierMap(apps) {
        IdentifierMapLastWriter(apps, normalizedId);
      } else if Normalize(normalizedId) in IdentifierMap(apps) {
        IdentifierMapLastWriter(apps, Normalize(normalizedId));
      }
    }
  }

  /** Resolution ignores the case of the identifier. */
  lemma ResolveIgnoresCase(apps: seq<DesktopApp>, identifiers: map<string, DesktopApp>, appIdentifier: string)
    requires ValidApps(apps)
    ensures Resolve(apps, identifiers, Lower(appIdentifier)) == Resolve(apps, identifiers, appIdentifier)
  {
    LowerIsLower(appIdentifier);
  }

  /** An identifier that is a suffix-free base plus one known suffix, in any
      case, resolves like the base unless the suffixed form is itself a key. */
  lemma ResolveSuffixed(apps: seq<DesktopApp>, appIdentifier: string, base: string, suffix: string)
    requires ValidApps(apps)
    requires IsLower(base) && SuffixFree(base) && base != ""
    requires suffix in SUFFIXES && Lower(appIdentifier) == base + suffix
    requires base + suffix !in IdentifierMap(apps)
    ensures Resolve(apps, IdentifierMap(apps), appIdentifier)
         == Resolve(apps, IdentifierMap(apps), base)
  {
    ScanIsDead(apps, appIdentifier);
    ScanIsDead(apps, base);
    NormalizeSuffixed(base, suffix);
    LowerOfLower(base);
    NormalizeFixesSuffixFree(base);
  }
}
