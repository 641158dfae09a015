/** The server-wide policy of the compositor (src/wlmatchbox/server.c): which
    clients see the foreign-toplevel manager, the panel client's life cycle,
    the seat capabilities, the Alt+Tab binding and the pointer handlers that
    move focus and pick the cursor image. */
module ServerPolicy {
  import opened Common
  import opened Compositor
  import opened Toplevels

  const WL_SEAT_CAPABILITY_POINTER: bv32 := 1
  const WL_SEAT_CAPABILITY_KEYBOARD: bv32 := 2
  const XKB_KEY_TAB: nat := 0xff09

  /** global_filter: the foreign-toplevel manager global is shown only to
      the panel client; every other global is shown to every client. */
  function GlobalFilter(client: ClientId, global: GlobalId, foreignManager: GlobalId,
                        panelClient: Option<ClientId>): (visible: bool)
  {
    if global == foreignManager then panelClient == Some(client) else true
  }

  /** The foreign-toplevel manager is visible to a client exactly when that
      client is the panel client, so at most one client sees it and none
      does while there is no panel; any other global is visible to all. */
  lemma ForeignManagerOnlyForPanel(foreignManager: GlobalId, panelClient: Option<ClientId>)
    ensures forall c: ClientId :: GlobalFilter(c, foreignManager, foreignManager, panelClient) <==> panelClient == Some(c)
    ensures forall c1: ClientId, c2: ClientId ::
      GlobalFilter(c1, foreignManager, foreignManager, panelClient) && GlobalFilter(c2, foreignManager, foreignManager, panelClient)
      ==> c1 == c2
    ensures forall c: ClientId, g: GlobalId :: g != foreignManager ==> GlobalFilter(c, g, foreignManager, panelClient)
  {
  }

  /** The capability mask server_new_input hands to the seat: a pointer is
      always announced, a keyboard exactly when one is attached, and no
      other capability bit is ever set. */
  function Capabilities(keyboards: seq<KeyboardId>): (caps: bv32)
    ensures caps & WL_SEAT_CAPABILITY_POINTER != 0
    ensures caps & WL_SEAT_CAPABILITY_KEYBOARD != 0 <==> keyboards != []
    ensures caps & !(WL_SEAT_CAPABILITY_POINTER | WL_SEAT_CAPABILITY_KEYBOARD) == 0
  {
    if keyboards != [] then WL_SEAT_CAPABILITY_POINTER | WL_SEAT_CAPABILITY_KEYBOARD
    else WL_SEAT_CAPABILITY_POINTER
  }

  /** A wlr_input_device as server_new_input tells them apart. */
  datatype InputDevice = KeyboardDevice(keyboard: KeyboardId) | PointerDevice(pointer: PointerId) | OtherDevice

  /** server_new_input: a keyboard is set up (linked at the head of
      server->keyboards and made the seat keyboard), a pointer is attached
      to the cursor, anything else is ignored; then the seat capabilities
      are recomputed from the keyboard list. */
  method NewInput(s: Server, device: InputDevice)
    requires device.KeyboardDevice? ==> device.keyboard !in s.keyboards
    modifies s`keyboards, s`pointers, s`hasKeyboard, s`caps
    ensures device.KeyboardDevice? ==> s.keyboards == [device.keyboard] + old(s.keyboards) && s.hasKeyboard
    ensures !device.KeyboardDevice? ==> s.keyboards == old(s.keyboards) && s.hasKeyboard == old(s.hasKeyboard)
    ensures device.PointerDevice? ==> s.pointers == old(s.pointers) + [device.pointer]
    ensures !device.PointerDevice? ==> s.pointers == old(s.pointers)
    ensures s.caps == Capabilities(s.keyboards)
  {
    match device {
      case KeyboardDevice(k) =>
        s.keyboards := [k] + s.keyboards;
        s.hasKeyboard := true;
      case PointerDevice(p) =>
        s.pointers := s.pointers + [p];
      case OtherDevice =>
    }
    var caps := WL_SEAT_CAPABILITY_POINTER;
    if s.keyboards != [] {
      caps := caps | WL_SEAT_CAPABILITY_KEYBOARD;
    }
    s.caps := caps;
  }

  /** The listener on the panel client is linked exactly while there is a
      panel client. */
  ghost predicate PanelListenerOk(s: Server)
    reads s
  {
    s.panelListener <==> s.panelClient.Some?
  }

  /** server_create_panel: nothing happens while a panel client exists.
      Otherwise the client exec_client spawned (None when spawning failed)
      becomes the panel client, and the destroy listener is linked only
      when there is one. */
  method CreatePanel(s: Server, spawned: Option<ClientId>)
    requires PanelListenerOk(s)
    modifies s`panelClient, s`panelListener
    ensures PanelListenerOk(s)
    ensures old(s.panelClient).Some? ==> s.panelClient == old(s.panelClient) && s.panelListener == old(s.panelListener)
    ensures old(s.panelClient).None? ==> s.panelClient == spawned && s.panelListener == spawned.Some?
  {
    if s.panelClient.Some? {
      return;
    }
    s.panelClient := spawned;
    if s.panelClient.Some? {
      s.panelListener := true;
    }
  }

  /** on_panel_client_destroy: the listener is unlinked and there is no
      panel client any more. */
  method OnPanelClientDestroy(s: Server)
    requires s.panelListener
    modifies s`panelClient, s`panelListener
    ensures PanelListenerOk(s)
    ensures s.panelClient.None? && !s.panelListener
  {
    s.panelListener := false;
    s.panelClient := None;
  }

  /** server_handle_keybinding with Alt held: Tab focuses the tail of the
      focus stack (the window focused longest ago) when there are at least
      two windows, and is consumed either way; any other key is not
      consumed and changes nothing. When the tail does not hold the
      keyboard focus yet, the stack rotates: the tail becomes the head and
      the others keep their order. */
  method HandleKeybinding(s: Server, sym: nat) returns (handled: bool)
    requires s.Core()
    modifies s`toplevels, s`tops, s`keyboardFocus
    ensures s.Core()
    ensures old(OutputRefsOk(s.tops, s.outs)) ==> OutputRefsOk(s.tops, s.outs)
    ensures handled <==> sym == XKB_KEY_TAB
    ensures sym != XKB_KEY_TAB || |old(s.toplevels)| < 2 ==>
      s.toplevels == old(s.toplevels) && s.tops == old(s.tops) && s.keyboardFocus == old(s.keyboardFocus)
    ensures sym == XKB_KEY_TAB && |old(s.toplevels)| >= 2 ==>
      var n := |old(s.toplevels)|; var tail := old(s.toplevels)[n - 1];
      if old(s.keyboardFocus) == Some(old(s.tops)[tail].surface) then
        s.toplevels == old(s.toplevels) && s.tops == old(s.tops) && s.keyboardFocus == old(s.keyboardFocus)
      else
        && s.toplevels == [tail] + old(s.toplevels)[..n - 1]
        && s.tops == SwitchActivation(old(s.tops), PreviousHolder(old(s.toplevels), old(s.tops), old(s.keyboardFocus)), tail)
        && s.keyboardFocus == (if s.hasKeyboard then Some(old(s.tops)[tail].surface) else old(s.keyboardFocus))
  {
    if sym != XKB_KEY_TAB {
      return false;
    }
    if |s.toplevels| < 2 {
      return true;
    }
    var n := |s.toplevels|;
    var tail := s.toplevels[n - 1];
    WithoutAt(s.toplevels, n - 1);
    assert s.toplevels[n..] == [];
    Focus(s, Some(tail));
    return true;
  }

  /** server_cursor_button: the button event always goes to the client with
      pointer focus. On a press, the window under the cursor (if any) is
      focused; a release or a press over no window leaves the focus alone.
      Windows whose trees the scene shows are mapped. */
  method CursorButton(s: Server, event: ButtonEvent, hit: SceneHit)
    requires s.Core() && Tagged(hit)
    requires hit.BufferNode? ==>
      forall i :: 0 <= i < |hit.ancestors| && hit.ancestors[i].Some? ==> hit.ancestors[i].value in s.toplevels
    modifies s`buttons, s`toplevels, s`tops, s`keyboardFocus
    ensures s.Core()
    ensures old(OutputRefsOk(s.tops, s.outs)) ==> OutputRefsOk(s.tops, s.outs)
    ensures s.buttons == old(s.buttons) + [event]
    ensures event.state != WL_POINTER_BUTTON_STATE_PRESSED || HitWindow(hit).None? ==>
      s.toplevels == old(s.toplevels) && s.tops == old(s.tops) && s.keyboardFocus == old(s.keyboardFocus)
    ensures event.state == WL_POINTER_BUTTON_STATE_PRESSED && HitWindow(hit).Some? ==>
      var w := HitWindow(hit).value;
      w in old(s.toplevels) &&
      if old(s.keyboardFocus) == Some(old(s.tops)[w].surface) then
        s.toplevels == old(s.toplevels) && s.tops == old(s.tops) && s.keyboardFocus == old(s.keyboardFocus)
      else
        && s.toplevels == [w] + Without(old(s.toplevels), w)
        && s.tops == SwitchActivation(old(s.tops), PreviousHolder(old(s.toplevels), old(s.tops), old(s.keyboardFocus)), w)
        && s.keyboardFocus == (if s.hasKeyboard then Some(old(s.tops)[w].surface) else old(s.keyboardFocus))
  {
    s.buttons := s.buttons + [event];
    if event.state == WL_POINTER_BUTTON_STATE_PRESSED {
      var t, surface := ToplevelAt(hit);
      if t.Some? {
        FirstTaggedIsAncestor(hit.ancestors);
      }
      Focus(s, t);
    }
  }

  /** The window FirstTagged picks is one of the ancestors. */
  lemma FirstTaggedIsAncestor(ancestors: seq<Option<ToplevelId>>)
    requires FirstTagged(ancestors).Some?
    ensures exists i :: 0 <= i < |ancestors| && ancestors[i] == FirstTagged(ancestors)
  {
    var r := FirstTagged(ancestors);
    assert r in ancestors;
  }

  /** process_cursor_motion: over a window's surface the pointer focus moves
      to that surface at the surface-local position and the cursor image is
      left to the client; anywhere else the cursor shows the default image
      and the pointer focus is cleared. */
  method ProcessCursorMotion(s: Server, hit: SceneHit)
    requires Tagged(hit)
    modifies s`cursor, s`pointerFocus
    ensures HitWindow(hit).None? ==> s.cursor == Xcursor("default") && s.pointerFocus.None?
    ensures HitWindow(hit).Some? ==>
      && s.cursor == old(s.cursor)
      && hit.BufferNode? && hit.surface.Some?
      && s.pointerFocus == Some(PointerFocus(hit.surface.value.surface, hit.surface.value.client, hit.surface.value.local))
  {
    var t, surface := ToplevelAt(hit);
    if t.None? {
      s.cursor := Xcursor("default");
    }
    if surface.Some? {
      s.pointerFocus := Some(PointerFocus(surface.value.surface, surface.value.client, surface.value.local));
    } else {
      s.pointerFocus := None;
    }
  }

  /** seat_pointer_focus_change: losing the pointer focus restores the
      default cursor image. */
  method PointerFocusChange(s: Server, newSurface: Option<SurfaceId>)
    modifies s`cursor
    ensures newSurface.None? ==> s.cursor == Xcursor("default")
    ensures newSurface.Some? ==> s.cursor == old(s.cursor)
  {
    if newSurface.None? {
      s.cursor := Xcursor("default");
    }
  }

  /** seat_request_cursor: a client's cursor image is used exactly when
      that client has the pointer focus; any other client's request is
      ignored. */
  method RequestCursor(s: Server, client: ClientId, surface: Option<SurfaceId>, hotspot: Point)
    modifies s`cursor
    ensures s.pointerFocus.Some? && s.pointerFocus.value.client == client ==> s.cursor == ClientSurface(surface, hotspot)
    ensures !(s.pointerFocus.Some? && s.pointerFocus.value.client == client) ==> s.cursor == old(s.cursor)
  {
    if s.pointerFocus.Some? && s.pointerFocus.value.client == client {
      s.cursor := ClientSurface(surface, hotspot);
    }
  }
}
