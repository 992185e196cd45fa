/** The compositor dispatch commands the overview sends, and how their text
    reads back. `Render` is the exact text the overview writes on the
    compositor's socket; `Parse` is how that text splits into a verb, a
    workspace and a window address. */
module Commands {
  import opened Wrappers
  import opened Text
  import opened Decimal

  datatype Dispatch =
    | FocusWindow(address: string)
    | CloseWindow(address: string)
    | MoveToWorkspaceSilent(workspaceId: int, address: string)

  const FOCUS_PREFIX: string := "/dispatch focuswindow address:"
  const CLOSE_PREFIX: string := "/dispatch closewindow address:"
  const MOVE_PREFIX: string := "/dispatch movetoworkspacesilent "
  const ADDRESS_TAG: string := ",address:"

  /** The command text, as the source's f-strings build it. */
  function Render(command: Dispatch): string
  {
    match command
    case FocusWindow(address) => FOCUS_PREFIX + address
    case CloseWindow(address) => CLOSE_PREFIX + address
    case MoveToWorkspaceSilent(workspaceId, address) =>
      MOVE_PREFIX + IntToString(workspaceId) + ADDRESS_TAG + address
  }

  /** Index of the first `c` in `s`, or |s| when there is none. */
  function IndexOf(s: string, c: char): (n: nat)
    ensures n <= |s|
    ensures n < |s| ==> s[n] == c
    ensures c !in s[..n]
  {
    if s == [] then 0
    else if s[0] == c then 0
    else
      var n := 1 + IndexOf(s[1..], c);
      assert s[..n] == [s[0]] + s[1..][..n - 1];
      n
  }

  /** Reads a command text back: the verb from its prefix; for a move, the
      workspace up to the first ',' and the address after ",address:". */
  function Parse(text: string): Option<Dispatch>
  {
    if StartsWith(text, FOCUS_PREFIX) then Some(FocusWindow(text[|FOCUS_PREFIX|..]))
    else if StartsWith(text, CLOSE_PREFIX) then Some(CloseWindow(text[|CLOSE_PREFIX|..]))
    else if StartsWith(text, MOVE_PREFIX) then
      var rest := text[|MOVE_PREFIX|..];
      var n := IndexOf(rest, ',');
      if StartsWith(rest[n..], ADDRESS_TAG) then
        Some(MoveToWorkspaceSilent(ParseInt(rest[..n]), rest[n + |ADDRESS_TAG|..]))
      else None
    else None
  }

  lemma StartsWithAppend(prefix: string, rest: string)
    ensures StartsWith(prefix + rest, prefix)
    ensures (prefix + rest)[|prefix|..] == rest
  {
    assert (prefix + rest)[..|prefix|] == prefix;
  }

  /** Text that differs from `prefix` at position `k` does not start with it. */
  lemma DiffersAt(text: string, prefix: string, k: int)
    requires 0 <= k < |prefix| && k < |text| && text[k] != prefix[k]
    ensures !StartsWith(text, prefix)
  {
    if |prefix| <= |text| {
      assert text[..|prefix|][k] != prefix[k];
    }
  }

  lemma {:induction false} IndexOfAppend(a: string, b: string, c: char)
    requires c !in a
    ensures IndexOf(a + b, c) == |a| + IndexOf(b, c)
  {
    if a != [] {
      assert (a + b)[1..] == a[1..] + b;
      IndexOfAppend(a[1..], b, c);
    } else {
      assert a + b == b;
    }
  }

  lemma ParseFocus(address: string)
    ensures Parse(Render(FocusWindow(address))) == Some(FocusWindow(address))
  {
    StartsWithAppend(FOCUS_PREFIX, address);
  }

  lemma ParseClose(address: string)
    ensures Parse(Render(CloseWindow(address))) == Some(CloseWindow(address))
  {
    var text := CLOSE_PREFIX + address;
    StartsWithAppend(CLOSE_PREFIX, address);
    assert text[10] == 'c' by { assert text[10] == CLOSE_PREFIX[10]; }
    DiffersAt(text, FOCUS_PREFIX, 10);
  }

  /** The text after a move's prefix splits at its first ',' into the
      workspace digits and ",address:" followed by the address. */
  lemma MoveRestSplits(digits: string, address: string)
    requires ',' !in digits
    ensures IndexOf(digits + ADDRESS_TAG + address, ',') == |digits|
    ensures (digits + ADDRESS_TAG + address)[..|digits|] == digits
    ensures (digits + ADDRESS_TAG + address)[|digits|..] == ADDRESS_TAG + address
  {
    var rest := digits + ADDRESS_TAG + address;
    assert rest == digits + (ADDRESS_TAG + address);
    IndexOfAppend(digits, ADDRESS_TAG + address, ',');
    assert (ADDRESS_TAG + address)[0] == ',';
  }

  lemma ParseMove(workspaceId: int, address: string)
    ensures Parse(Render(MoveToWorkspaceSilent(workspaceId, address)))
         == Some(MoveToWorkspaceSilent(workspaceId, address))
  {
    var digits := IntToString(workspaceId);
    var rest := digits + ADDRESS_TAG + address;
    var text := MOVE_PREFIX + rest;
    assert text == Render(MoveToWorkspaceSilent(workspaceId, address));
    StartsWithAppend(MOVE_PREFIX, rest);
    assert text[10] == 'm' by { assert text[10] == MOVE_PREFIX[10]; }
    DiffersAt(text, FOCUS_PREFIX, 10);
    DiffersAt(text, CLOSE_PREFIX, 10);
    MoveRestSplits(digits, address);
    StartsWithAppend(ADDRESS_TAG, address);
    IntToStringRoundTrip(workspaceId);
  }

  /** Every command reads back as itself: the verb, the workspace and the
      window address survive rendering. */
  lemma ParseRender(command: Dispatch)
    ensures Parse(Render(command)) == Some(command)
  {
    match command
    case FocusWindow(address) => ParseFocus(address);
    case CloseWindow(address) => ParseClose(address);
    case MoveToWorkspaceSilent(workspaceId, address) => ParseMove(workspaceId, address);
  }

  /** Different commands never share a text. */
  lemma RenderInjective(c1: Dispatch, c2: Dispatch)
    ensures Render(c1) == Render(c2) ==> c1 == c2
  {
    ParseRender(c1);
    ParseRender(c2);
  }
}
