/** The overview menu: on every refresh it reloads the application registry,
    rebuilds the identifier map, makes one button per window on a regular
    workspace, places the buttons of each workspace in a container, and lays
    workspaces 1 to 10 out in two rows of five. The compositor's monitor and
    window lists, and the toolkit's icon services, are the inputs of a
    refresh. */
module Overview {
  import opened Wrappers
  import opened Text
  import opened AppIdentity
  import opened Geometry
  import opened Icons
  import opened Widgets

  /** A monitor as the compositor reports it. */
  datatype Monitor = Monitor(id: int, x: int, y: int, transform: int)

  /** A window as the compositor reports it: `width` × `height` pixels at
      (`atX`, `atY`), on workspace `workspaceId` of monitor `monitor`. */
  datatype Client = Client(
    address: string,
    title: string,
    initialClass: string,
    width: int,
    height: int,
    atX: int,
    atY: int,
    workspaceId: int,
    monitor: int)

  /** What a refresh keeps of a monitor: its origin and its transform. */
  datatype MonitorOrigin = MonitorOrigin(x: int, y: int, transform: int)

  function OriginOf(m: Monitor): MonitorOrigin
  {
    MonitorOrigin(m.x, m.y, m.transform)
  }

  /** Monitors by id; a later monitor with the same id replaces an earlier. */
  function MonitorMap(monitors: seq<Monitor>): map<int, MonitorOrigin>
  {
    if monitors == [] then map[]
    else
      var m := monitors[|monitors| - 1];
      MonitorMap(monitors[..|monitors| - 1])[m.id := OriginOf(m)]
  }

  /** The ids of the monitors. */
  function MonitorIds(monitors: seq<Monitor>): set<int>
  {
    set i | 0 <= i < |monitors| :: monitors[i].id
  }

  /** Exactly the ids of the monitors are mapped. */
  lemma {:induction false} MonitorMapKeys(monitors: seq<Monitor>)
    ensures MonitorMap(monitors).Keys == MonitorIds(monitors)
  {
    if monitors != [] {
      var n := |monitors| - 1;
      var prefix := monitors[..n];
      MonitorMapKeys(prefix);
      forall i | 0 <= i < n
        ensures prefix[i] == monitors[i]
      {
      }
      assert MonitorIds(monitors) == MonitorIds(prefix) + {monitors[n].id};
    }
  }

  /** An id is mapped to the origin of the last monitor that has it. */
  lemma {:induction false} MonitorMapLast(monitors: seq<Monitor>, i: int)
    requires 0 <= i < |monitors|
    requires forall j :: i < j < |monitors| ==> monitors[j].id != monitors[i].id
    ensures monitors[i].id in MonitorMap(monitors)
    ensures MonitorMap(monitors)[monitors[i].id] == OriginOf(monitors[i])
  {
    var n := |monitors| - 1;
    if i < n {
      var prefix := monitors[..n];
      assert prefix[i] == monitors[i];
      forall j | i < j < |prefix|
        ensures prefix[j].id != prefix[i].id
      {
        assert prefix[j] == monitors[j];
      }
      MonitorMapLast(prefix, i);
    }
  }

  /** Everything a refresh reads besides the window list: the registry,
      the monitors by id, and the toolkit's icon services. */
  datatype Desktop = Desktop(apps: seq<DesktopApp>, monitors: map<int, MonitorOrigin>, icons: IconLookup)

  /** Every window on a regular workspace is on a known monitor. */
  predicate MonitorsKnown(monitors: map<int, MonitorOrigin>, clients: seq<Client>)
  {
    forall i :: 0 <= i < |clients| && clients[i].workspaceId > 0 ==> clients[i].monitor in monitors
  }

  /** The origin of a window's monitor. A refresh only asks for monitors it
      knows (MonitorsKnown); the origin (0, 0, 0) given for an unknown one
      keeps the functions below total and is never used by a refresh. */
  function Origin(d: Desktop, c: Client): MonitorOrigin
  {
    if c.monitor in d.monitors then d.monitors[c.monitor] else MonitorOrigin(0, 0, 0)
  }

  /** The button of a window: its drawn size, its monitor's transform, and
      the application its initial class resolves to. */
  function ButtonFor(d: Desktop, c: Client): WindowButton
    requires ValidApps(d.apps)
  {
    NewWindowButton(c.address, c.title, c.initialClass, ScaledSize(c.width, c.height),
                    Origin(d, c).transform, Resolve(d.apps, IdentifierMap(d.apps), c.initialClass),
                    d.icons)
  }

  /** The button of a window, at its position relative to its monitor. */
  function PlacementFor(d: Desktop, c: Client): Placement
    requires ValidApps(d.apps)
  {
    Placement(ButtonFor(d, c), Position(c.atX, c.atY, Origin(d, c).x, Origin(d, c).y))
  }

  /** The buttons by window address after the first |clients| windows. */
  function Buttons(d: Desktop, clients: seq<Client>): map<string, WindowButton>
    requires ValidApps(d.apps)
  {
    if clients == [] then map[]
    else
      var n := |clients| - 1;
      var earlier := Buttons(d, clients[..n]);
      if clients[n].workspaceId > 0 then earlier[clients[n].address := ButtonFor(d, clients[n])]
      else earlier
  }

  /** The workspace containers after the first |clients| windows: a
      container is created for a workspace on its first window, and each
      window is appended to its workspace's container. */
  function Containers(d: Desktop, clients: seq<Client>): map<int, seq<Placement>>
    requires ValidApps(d.apps)
  {
    if clients == [] then map[]
    else
      var n := |clients| - 1;
      var earlier := Containers(d, clients[..n]);
      var w := clients[n].workspaceId;
      if w > 0 then
        var placed := if w in earlier then earlier[w] else [];
        earlier[w := placed + [PlacementFor(d, clients[n])]]
      else earlier
  }

  /** Independent reference: the windows of workspace `w`, in list order. */
  function OnWorkspace(d: Desktop, clients: seq<Client>, w: int): seq<Placement>
    requires ValidApps(d.apps)
  {
    if clients == [] then []
    else
      (if clients[0].workspaceId == w then [PlacementFor(d, clients[0])] else [])
        + OnWorkspace(d, clients[1..], w)
  }

  lemma {:induction false} OnWorkspaceSnoc(d: Desktop, clients: seq<Client>, w: int)
    requires ValidApps(d.apps) && clients != []
    ensures var n := |clients| - 1;
      OnWorkspace(d, clients, w)
        == OnWorkspace(d, clients[..n], w)
           + (if clients[n].workspaceId == w then [PlacementFor(d, clients[n])] else [])
  {
    var n := |clients| - 1;
    if n > 0 {
      var rest := clients[1..];
      OnWorkspaceSnoc(d, rest, w);
      assert rest[..|rest| - 1] == clients[..n][1..];
      assert rest[|rest| - 1] == clients[n];
    } else {
      assert clients[1..] == [];
      assert clients[..n] == [];
    }
  }

  /** The workspaces that have a window, leaving out special workspaces. */
  function RegularWorkspaces(clients: seq<Client>): set<int>
  {
    set i | 0 <= i < |clients| && clients[i].workspaceId > 0 :: clients[i].workspaceId
  }

  /** The addresses of the windows on regular workspaces. */
  function RegularAddresses(clients: seq<Client>): set<string>
  {
    set i | 0 <= i < |clients| && clients[i].workspaceId > 0 :: clients[i].address
  }

  lemma RegularSnoc(clients: seq<Client>)
    requires clients != []
    ensures var n := |clients| - 1;
      RegularWorkspaces(clients)
        == RegularWorkspaces(clients[..n]) + (if clients[n].workspaceId > 0 then {clients[n].workspaceId} else {})
    ensures var n := |clients| - 1;
      RegularAddresses(clients)
        == RegularAddresses(clients[..n]) + (if clients[n].workspaceId > 0 then {clients[n].address} else {})
  {
    var n := |clients| - 1;
    var prefix := clients[..n];
    forall i | 0 <= i < n
      ensures prefix[i] == clients[i]
    {
    }
  }

  /** A workspace has a container exactly when a window is on it and its
      id is positive. */
  lemma {:induction false} ContainerKeys(d: Desktop, clients: seq<Client>)
    requires ValidApps(d.apps)
    ensures Containers(d, clients).Keys == RegularWorkspaces(clients)
  {
    if clients != [] {
      var n := |clients| - 1;
      ContainerKeys(d, clients[..n]);
      RegularSnoc(clients);
    }
  }

  /** A workspace's container holds the buttons of the windows on it, one
      per window, in the order the compositor listed them. */
  lemma {:induction false} ContainerContents(d: Desktop, clients: seq<Client>, w: int)
    requires ValidApps(d.apps) && w > 0
    ensures w in Containers(d, clients) ==> Containers(d, clients)[w] == OnWorkspace(d, clients, w)
    ensures w !in Containers(d, clients) ==> OnWorkspace(d, clients, w) == []
  {
    if clients != [] {
      var n := |clients| - 1;
      ContainerContents(d, clients[..n], w);
      OnWorkspaceSnoc(d, clients, w);
    }
  }

  /** The windows on regular workspaces are exactly the ones with a
      button, under their addresses. */
  lemma {:induction false} ButtonKeys(d: Desktop, clients: seq<Client>)
    requires ValidApps(d.apps)
    ensures Buttons(d, clients).Keys == RegularAddresses(clients)
  {
    if clients != [] {
      var n := |clients| - 1;
      ButtonKeys(d, clients[..n]);
      RegularSnoc(clients);
    }
  }

  /** The button under a window's address is that window's, unless a later
      window on a regular workspace has the same address. */
  lemma {:induction false} ButtonOfWindow(d: Desktop, clients: seq<Client>, i: int)
    requires ValidApps(d.apps)
    requires 0 <= i < |clients| && clients[i].workspaceId > 0
    requires forall j :: i < j < |clients| && clients[j].workspaceId > 0 ==> clients[j].address != clients[i].address
    ensures clients[i].address in Buttons(d, clients)
    ensures Buttons(d, clients)[clients[i].address] == ButtonFor(d, clients[i])
  {
    var n := |clients| - 1;
    if i < n {
      var prefix := clients[..n];
      assert prefix[i] == clients[i];
      forall j | i < j < |prefix| && prefix[j].workspaceId > 0
        ensures prefix[j].address != prefix[i].address
      {
        assert prefix[j] == clients[j];
      }
      ButtonOfWindow(d, prefix, i);
      assert clients[n].workspaceId > 0 ==> clients[n].address != clients[i].address;
    }
  }

  /** A window on a special workspace (id 0 or below) leaves no trace: its
      workspace gets no container, and unless its address is shared with a
      window on a regular workspace, it gets no button. */
  lemma SpecialWorkspaceLeavesNoTrace(d: Desktop, clients: seq<Client>, i: int)
    requires ValidApps(d.apps)
    requires 0 <= i < |clients| && clients[i].workspaceId <= 0
    requires forall j :: 0 <= j < |clients| && clients[j].workspaceId > 0 ==> clients[j].address != clients[i].address
    ensures clients[i].workspaceId !in Containers(d, clients)
    ensures clients[i].address !in Buttons(d, clients)
  {
    ContainerKeys(d, clients);
    ButtonKeys(d, clients);
  }

  // ---------------------------------------------------------------------
  // Layout
  // ---------------------------------------------------------------------

  const ROW_LENGTH: int := 5
  const LAST_WORKSPACE: int := 10

  /** The slot of workspace `w`: its container when it has one. */
  function SlotFor(boxes: map<int, seq<Placement>>, w: int): WorkspaceSlot
  {
    NewWorkspaceSlot(w, if w in boxes then Some(boxes[w]) else None)
  }

  /** The two rows after slots 1..n have been added: workspaces up to
      ROW_LENGTH go in the first row, the rest in the second. */
  function LayoutUpTo(boxes: map<int, seq<Placement>>, n: nat): (rows: seq<seq<WorkspaceSlot>>)
    ensures |rows| == 2
    ensures |rows[0]| == (if n <= ROW_LENGTH then n else ROW_LENGTH)
    ensures |rows[1]| == (if n <= ROW_LENGTH then 0 else n - ROW_LENGTH)
  {
    if n == 0 then [[], []]
    else
      var rows := LayoutUpTo(boxes, n - 1);
      if n <= ROW_LENGTH then [rows[0] + [SlotFor(boxes, n)], rows[1]]
      else [rows[0], rows[1] + [SlotFor(boxes, n)]]
  }

  function Layout(boxes: map<int, seq<Placement>>): seq<seq<WorkspaceSlot>>
  {
    LayoutUpTo(boxes, LAST_WORKSPACE)
  }

  lemma {:induction false} LayoutUpToShape(boxes: map<int, seq<Placement>>, n: nat)
    requires n <= LAST_WORKSPACE
    ensures forall k :: 0 <= k < |LayoutUpTo(boxes, n)[0]| ==> LayoutUpTo(boxes, n)[0][k] == SlotFor(boxes, k + 1)
    ensures forall k :: 0 <= k < |LayoutUpTo(boxes, n)[1]| ==>
      LayoutUpTo(boxes, n)[1][k] == SlotFor(boxes, k + ROW_LENGTH + 1)
  {
    if n > 0 {
      LayoutUpToShape(boxes, n - 1);
      var earlier := LayoutUpTo(boxes, n - 1);
      var rows := LayoutUpTo(boxes, n);
      if n <= ROW_LENGTH {
        assert rows[0] == earlier[0] + [SlotFor(boxes, n)] && rows[1] == earlier[1];
        forall k | 0 <= k < |rows[0]|
          ensures rows[0][k] == SlotFor(boxes, k + 1)
        {
          if k < |earlier[0]| {
            assert rows[0][k] == earlier[0][k];
          }
        }
      } else {
        assert rows[1] == earlier[1] + [SlotFor(boxes, n)] && rows[0] == earlier[0];
        forall k | 0 <= k < |rows[1]|
          ensures rows[1][k] == SlotFor(boxes, k + ROW_LENGTH + 1)
        {
          if k < |earlier[1]| {
            assert rows[1][k] == earlier[1][k];
          }
        }
      }
    }
  }

  /** The overview shows two rows of five slots: workspaces 1 to 5 on top,
      6 to 10 below, each with its container exactly when it has one. */
  lemma LayoutShape(boxes: map<int, seq<Placement>>)
    ensures |Layout(boxes)| == 2
    ensures |Layout(boxes)[0]| == 5 && |Layout(boxes)[1]| == 5
    ensures forall k :: 0 <= k < 5 ==> Layout(boxes)[0][k] == SlotFor(boxes, k + 1)
    ensures forall k :: 0 <= k < 5 ==> Layout(boxes)[1][k] == SlotFor(boxes, k + 6)
  {
    LayoutUpToShape(boxes, LAST_WORKSPACE);
  }

  /** Only workspaces 1 to 10 are ever shown: a container for a higher
      workspace is built but has no slot. */
  lemma OnlyFirstTenShown(boxes: map<int, seq<Placement>>, row: int, k: int)
    requires 0 <= row < 2 && 0 <= k < |Layout(boxes)[row]|
    ensures 1 <= Layout(boxes)[row][k].workspaceId <= LAST_WORKSPACE
  {
    LayoutShape(boxes);
  }

  /** After a refresh, the slot of workspace `w` shows the windows on `w`
      in list order when there are any, and the "+" otherwise. With
      LayoutShape this places the slot of workspace `w` (1 to 10) in the
      rows. */
  lemma SlotShowsItsWindows(d: Desktop, clients: seq<Client>, w: int)
    requires ValidApps(d.apps) && w > 0
    ensures SlotFor(Containers(d, clients), w).workspaceId == w
    ensures SlotFor(Containers(d, clients), w).windows.Some? <==> w in RegularWorkspaces(clients)
    ensures SlotFor(Containers(d, clients), w).windows.Some? ==>
      SlotFor(Containers(d, clients), w).windows.value == OnWorkspace(d, clients, w)
  {
    ContainerKeys(d, clients);
    ContainerContents(d, clients, w);
  }

  // ---------------------------------------------------------------------
  // The menu
  // ---------------------------------------------------------------------

  lemma ScanStep(apps: seq<DesktopApp>, i: int, normalizedId: string)
    requires ValidApps(apps) && 0 <= i < |apps|
    ensures ValidApp(apps[i])
    ensures Scan(apps[i..], normalizedId)
         == if AppMatches(apps[i], normalizedId) then Some(apps[i]) else Scan(apps[i + 1..], normalizedId)
  {
    assert apps[i] in apps;
    assert apps[i..][0] == apps[i];
    assert apps[i..][1..] == apps[i + 1..];
  }

  /** The button and placement of a window, from the application its class
      resolves to. */
  lemma ButtonForParts(d: Desktop, c: Client, desktopApp: Option<DesktopApp>)
    requires ValidApps(d.apps) && c.monitor in d.monitors
    requires desktopApp == Resolve(d.apps, IdentifierMap(d.apps), c.initialClass)
    ensures ButtonFor(d, c) == NewWindowButton(c.address, c.title, c.initialClass, ScaledSize(c.width, c.height),
                                               d.monitors[c.monitor].transform, desktopApp, d.icons)
    ensures PlacementFor(d, c)
         == Placement(ButtonFor(d, c), Position(c.atX, c.atY, d.monitors[c.monitor].x, d.monitors[c.monitor].y))
  {
  }

  lemma ButtonsSnoc(d: Desktop, clients: seq<Client>, i: int)
    requires ValidApps(d.apps) && 0 <= i < |clients|
    ensures Buttons(d, clients[..i + 1])
         == if clients[i].workspaceId > 0 then Buttons(d, clients[..i])[clients[i].address := ButtonFor(d, clients[i])]
            else Buttons(d, clients[..i])
  {
    assert clients[..i + 1][..i] == clients[..i];
  }

  lemma ContainersSnoc(d: Desktop, clients: seq<Client>, i: int)
    requires ValidApps(d.apps) && 0 <= i < |clients|
    ensures Containers(d, clients[..i + 1])
         == if clients[i].workspaceId > 0 then
              var earlier := Containers(d, clients[..i]);
              var w := clients[i].workspaceId;
              earlier[w := (if w in earlier then earlier[w] else []) + [PlacementFor(d, clients[i])]]
            else Containers(d, clients[..i])
  {
    assert clients[..i + 1][..i] == clients[..i];
  }

  class OverviewMenu {
    var allApps: seq<DesktopApp>
    var appIdentifiers: map<string, DesktopApp>
    var clients: map<string, WindowButton>
    var workspaceBoxes: map<int, seq<Placement>>
    var rows: seq<seq<WorkspaceSlot>>

    /** The identifier map is the one built from the registry, only
        regular workspaces have containers, and the rows are the layout of
        the containers. */
    ghost predicate Valid()
      reads this
    {
      && ValidApps(allApps)
      && appIdentifiers == IdentifierMap(allApps)
      && (forall w :: w in workspaceBoxes ==> w > 0)
      && rows == Layout(workspaceBoxes)
    }

    /** Loads the registry and does a first refresh. */
    constructor(apps: seq<DesktopApp>, monitors: seq<Monitor>, windows: seq<Client>, icons: IconLookup)
      requires ValidApps(apps) && MonitorsKnown(MonitorMap(monitors), windows)
      ensures Valid()
      ensures allApps == apps
      ensures clients == Buttons(Desktop(apps, MonitorMap(monitors), icons), windows)
      ensures workspaceBoxes == Containers(Desktop(apps, MonitorMap(monitors), icons), windows)
    {
      allApps := apps;
      appIdentifiers := map[];
      clients := map[];
      workspaceBoxes := map[];
      rows := [];
      new;
      Update(apps, monitors, windows, icons);
    }

    /** Looks an identifier up: "" finds nothing; then the lowercased
        identifier and its normalized form are looked up in the identifier
        map; last, the registry is scanned in order. */
    method FindApp(appIdentifier: string) returns (app: Option<DesktopApp>)
      requires ValidApps(allApps)
      ensures app == Resolve(allApps, appIdentifiers, appIdentifier)
    {
      if appIdentifier == "" {
        return None;
      }
      var normalizedId := Lower(appIdentifier);
      if normalizedId in appIdentifiers {
        return Some(appIdentifiers[normalizedId]);
      }
      var normId := NormalizeWindowClass(normalizedId);
      if normId in appIdentifiers {
        return Some(appIdentifiers[normId]);
      }
      ghost var expected := Resolve(allApps, appIdentifiers, appIdentifier);
      assert expected == Scan(allApps, normalizedId);
      for i := 0 to |allApps|
        invariant expected == Scan(allApps[i..], normalizedId)
      {
        var candidate := allApps[i];
        ScanStep(allApps, i, normalizedId);
        if candidate.name != "" && Lower(candidate.name) == normalizedId {
          return Some(candidate);
        }
        if candidate.windowClass != "" && Lower(candidate.windowClass) == normalizedId {
          return Some(candidate);
        }
        if candidate.displayName != "" && Lower(candidate.displayName) == normalizedId {
          return Some(candidate);
        }
        if candidate.executable != "" {
          var exeBase := ExecutableKey(candidate.executable);
          if exeBase == normalizedId {
            return Some(candidate);
          }
        }
        if candidate.commandLine != "" {
          var cmdBase := CommandKey(candidate.commandLine);
          if cmdBase == normalizedId {
            return Some(candidate);
          }
        }
      }
      assert allApps[|allApps|..] == [];
      return None;
    }

    /** Rebuilds everything from the registry, the monitors and the windows
        now reported: one button per window on a regular workspace, one
        container per such workspace, then the two rows. */
    method Update(apps: seq<DesktopApp>, monitors: seq<Monitor>, windows: seq<Client>, icons: IconLookup)
      requires ValidApps(apps) && MonitorsKnown(MonitorMap(monitors), windows)
      modifies this
      ensures Valid()
      ensures allApps == apps
      ensures clients == Buttons(Desktop(apps, MonitorMap(monitors), icons), windows)
      ensures workspaceBoxes == Containers(Desktop(apps, MonitorMap(monitors), icons), windows)
    {
      allApps := apps;
      appIdentifiers := BuildAppIdentifiersMap(apps);

      clients := map[];
      workspaceBoxes := map[];
      rows := [[], []];

      var d := Desktop(apps, MonitorMap(monitors), icons);
      AddWindows(d, windows);
      ContainerKeys(d, windows);
      LayOutWorkspaces();
    }

    /** Makes a button for every window on a regular workspace and puts it
        in its workspace's container, creating the container on the
        workspace's first window. */
    method AddWindows(d: Desktop, windows: seq<Client>)
      requires ValidApps(allApps) && appIdentifiers == IdentifierMap(allApps) && d.apps == allApps
      requires MonitorsKnown(d.monitors, windows)
      requires clients == map[] && workspaceBoxes == map[]
      modifies this`clients, this`workspaceBoxes
      ensures clients == Buttons(d, windows)
      ensures workspaceBoxes == Containers(d, windows)
    {
      for i := 0 to |windows|
        invariant clients == Buttons(d, windows[..i])
        invariant workspaceBoxes == Containers(d, windows[..i])
      {
        var client := windows[i];
        // Windows on special workspaces are skipped.
        if client.workspaceId > 0 {
          AddWindow(d, client);
        }
        assert clients == Buttons(d, windows[..i + 1]) by {
          ButtonsSnoc(d, windows, i);
        }
        assert workspaceBoxes == Containers(d, windows[..i + 1]) by {
          ContainersSnoc(d, windows, i);
        }
      }
      assert windows[..|windows|] == windows;
    }

    /** Makes the button of one window on a regular workspace, records it
        under the window's address, and appends it, at its position relative
        to its monitor, to its workspace's container. */
    method AddWindow(d: Desktop, client: Client)
      requires ValidApps(allApps) && appIdentifiers == IdentifierMap(allApps) && d.apps == allApps
      requires client.workspaceId > 0 && client.monitor in d.monitors
      modifies this`clients, this`workspaceBoxes
      ensures clients == old(clients)[client.address := ButtonFor(d, client)]
      ensures var w := client.workspaceId;
        workspaceBoxes == old(workspaceBoxes)[w :=
          (if w in old(workspaceBoxes) then old(workspaceBoxes)[w] else []) + [PlacementFor(d, client)]]
    {
      var origin := d.monitors[client.monitor];
      var desktopApp := FindApp(client.initialClass);
      ButtonForParts(d, client, desktopApp);
      clients := clients[client.address := NewWindowButton(
        client.address, client.title, client.initialClass, ScaledSize(client.width, client.height),
        origin.transform, desktopApp, d.icons)];
      if client.workspaceId !in workspaceBoxes {
        workspaceBoxes := workspaceBoxes[client.workspaceId := []];
      }
      workspaceBoxes := workspaceBoxes[client.workspaceId :=
        workspaceBoxes[client.workspaceId]
        + [Placement(clients[client.address], Position(client.atX, client.atY, origin.x, origin.y))]];
    }

    /** Adds the slots of workspaces 1 to 10 to the two rows, five to a row,
        each slot holding its workspace's container when there is one. */
    method LayOutWorkspaces()
      requires rows == [[], []]
      modifies this`rows
      ensures rows == Layout(workspaceBoxes)
    {
      for w := 1 to LAST_WORKSPACE + 1
        invariant rows == LayoutUpTo(workspaceBoxes, w - 1)
      {
        var slot := NewWorkspaceSlot(w, if w in workspaceBoxes then Some(workspaceBoxes[w]) else None);
        if w <= ROW_LENGTH {
          rows := [rows[0] + [slot], rows[1]];
        } else {
          rows := [rows[0], rows[1] + [slot]];
        }
      }
    }
  }
}
