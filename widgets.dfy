/** The two widgets the overview is made of: a window button, drawn for one
    window at a tenth of its size with the window's icon, and a workspace
    slot, which holds the buttons of one workspace and accepts windows
    dropped on it. Their event handlers are modelled by the dispatch
    command each one sends. */
module Widgets {
  import opened Wrappers
  import opened Decimal
  import opened AppIdentity
  import opened Geometry
  import opened Icons
  import opened Commands
  import opened Text

  /** GDK's modifier bit for Shift, and the key symbols of Return, keypad
      Enter and space. */
  const SHIFT_MASK: bv32 := 1
  const KEY_RETURN: int := 0xff0d
  const KEY_KP_ENTER: int := 0xff8d
  const KEY_SPACE: int := 0x20

  /** The mouse button that closes a window. */
  const SECONDARY_BUTTON: int := 3

  /** What a key handler reports: whether it consumed the key, and the
      command it sent, if any. */
  datatype KeyOutcome = KeyOutcome(handled: bool, command: Option<Dispatch>)

  /** A button standing for one window. `requestedSize` is the size the
      button asks the toolkit for; `size` is the size it keeps for its icon,
      sides exchanged on a rotated monitor. */
  datatype WindowButton = WindowButton(
    address: string,
    title: string,
    appId: string,
    requestedSize: Size,
    size: Size,
    transform: int,
    iconSize: int,
    desktopApp: Option<DesktopApp>,
    icon: Option<Pixbuf>)
  {
    /** A click focuses the window. */
    function OnClicked(): Dispatch
    {
      FocusWindow(address)
    }

    /** A press of the secondary button closes the window; other buttons
        send nothing. */
    function OnButtonPress(button: int): Option<Dispatch>
    {
      if button == SECONDARY_BUTTON then Some(CloseWindow(address)) else None
    }

    /** Shift with Return, keypad Enter or space closes the window and
        consumes the key; every other key is passed on. */
    function OnKeyPress(state: bv32, keyval: int): KeyOutcome
    {
      if state & SHIFT_MASK != 0 && (keyval == KEY_RETURN || keyval == KEY_KP_ENTER || keyval == KEY_SPACE) then
        KeyOutcome(true, Some(CloseWindow(address)))
      else
        KeyOutcome(false, None)
    }

    /** The text a drag from this button carries: the window's address. */
    function DragData(): string
    {
      address
    }
  }

  /** Builds the button of a window: the transform is reduced modulo 4, the
      kept size is swapped on a rotated monitor, the icon side is half the
      kept size's shorter side, and the icon comes from the icon chain. */
  function NewWindowButton(address: string, title: string, appId: string, size: Size, transform: int,
                           desktopApp: Option<DesktopApp>, lookup: IconLookup): WindowButton
  {
    var kept := StoredSize(size, transform);
    var iconSide := IconSize(kept);
    WindowButton(address, title, appId, size, kept, StoredTransform(transform), iconSide,
                 desktopApp, ResolveIcon(lookup, desktopApp, appId, iconSide))
  }

  /** A button put at a position inside a workspace slot. */
  datatype Placement = Placement(button: WindowButton, at: Point)

  /** One workspace of the overview: its label and, when it has windows, the
      buttons placed in it; a slot without windows shows a "+" instead. */
  datatype WorkspaceSlot = WorkspaceSlot(workspaceId: int, heading: string, windows: Option<seq<Placement>>)
  {
    /** Dropping a drag's text on the slot moves that window here without
        following it. */
    function OnDrop(data: string): Dispatch
    {
      MoveToWorkspaceSilent(workspaceId, data)
    }
  }

  const LABEL_PREFIX: string := "Workspace "

  function NewWorkspaceSlot(workspaceId: int, windows: Option<seq<Placement>>): WorkspaceSlot
  {
    WorkspaceSlot(workspaceId, LABEL_PREFIX + IntToString(workspaceId), windows)
  }

  /** A new button keeps the requested size, a transform in 0..3 congruent
      to the monitor's, the requested size on an upright or upside-down
      monitor (transform 0 or 2) and its quarter turn otherwise, an icon side
      that does not depend on the transform, and the icon the chain gives
      for that side. */
  lemma WindowButtonShape(address: string, title: string, appId: string, size: Size, transform: int,
                          desktopApp: Option<DesktopApp>, lookup: IconLookup)
    ensures var b := NewWindowButton(address, title, appId, size, transform, desktopApp, lookup);
      && b.address == address && b.title == title && b.appId == appId
      && b.requestedSize == size
      && 0 <= b.transform < 4 && (transform - b.transform) % 4 == 0
      && b.size == (if transform == 0 || transform == 2 then size else Size(size.height, size.width))
      && b.iconSize == IconSize(size)
      && b.desktopApp == desktopApp
      && b.icon == ResolveIcon(lookup, desktopApp, appId, IconSize(size))
  {
    IconSizeIgnoresTransform(size, transform);
  }

  /** A click sends a focus command naming the button's own window. */
  lemma ClickFocusesOwnWindow(b: WindowButton)
    ensures Parse(Render(b.OnClicked())) == Some(FocusWindow(b.address))
  {
    ParseRender(b.OnClicked());
  }

  /** A button press sends a command exactly when it is the secondary
      button, and that command closes the button's own window. */
  lemma SecondaryClickClosesOwnWindow(b: WindowButton, button: int)
    ensures b.OnButtonPress(button).Some? <==> button == SECONDARY_BUTTON
    ensures b.OnButtonPress(button).Some? ==>
      Parse(Render(b.OnButtonPress(button).value)) == Some(CloseWindow(b.address))
  {
    if button == SECONDARY_BUTTON {
      ParseRender(CloseWindow(b.address));
    }
  }

  /** A key is consumed exactly when Shift is held with Return, keypad
      Enter or space; exactly then a command is sent, and it closes the
      button's own window. */
  lemma ShiftActivationClosesOwnWindow(b: WindowButton, state: bv32, keyval: int)
    ensures b.OnKeyPress(state, keyval).handled <==>
      (state & SHIFT_MASK != 0 && keyval in {KEY_RETURN, KEY_KP_ENTER, KEY_SPACE})
    ensures b.OnKeyPress(state, keyval).handled <==> b.OnKeyPress(state, keyval).command.Some?
    ensures b.OnKeyPress(state, keyval).command.Some? ==>
      Parse(Render(b.OnKeyPress(state, keyval).command.value)) == Some(CloseWindow(b.address))
  {
    ParseRender(CloseWindow(b.address));
  }

  /** Dragging a button onto a slot moves the dragged window, and no other,
      to the slot's workspace. */
  lemma DropMovesDraggedWindow(b: WindowButton, slot: WorkspaceSlot)
    ensures Parse(Render(slot.OnDrop(b.DragData())))
         == Some(MoveToWorkspaceSilent(slot.workspaceId, b.address))
  {
    ParseRender(slot.OnDrop(b.DragData()));
  }

  /** Window 0x1234 dropped on workspace 3. */
  lemma DropExample(b: WindowButton)
    requires b.address == "0x1234"
    ensures Render(NewWorkspaceSlot(3, None).OnDrop(b.DragData()))
         == "/dispatch movetoworkspacesilent 3,address:0x1234"
  {
    assert IntToString(3) == "3";
  }

  /** A slot's label is "Workspace " followed by its id, which reads back
      from the label. */
  lemma SlotLabelNamesWorkspace(workspaceId: int, windows: Option<seq<Placement>>)
    ensures var slot := NewWorkspaceSlot(workspaceId, windows);
      && StartsWith(slot.heading, LABEL_PREFIX)
      && ParseInt(slot.heading[|LABEL_PREFIX|..]) == workspaceId
      && slot.workspaceId == workspaceId && slot.windows == windows
  {
    StartsWithAppend(LABEL_PREFIX, IntToString(workspaceId));
    IntToStringRoundTrip(workspaceId);
  }
}
