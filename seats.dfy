/** Seats of the client library (src/libwlmatchapp/seat.c): the pointer
    events routed to the window under the pointer, the seat's capability
    and name events, creation and destruction, and setting the pointer's
    cursor image. A window's pointer callbacks are recorded as calls in the
    seat, with what they observe. */
module Seats {
  import opened Common
  import opened WlmTypes
  import Cursors

  const WL_SEAT_CAPABILITY_POINTER: bv32 := 1

  /** pointer_enter: the seat tracks the entered window, whose pointer
      position becomes the entry point; its enter callback, if any, runs
      after both updates. */
  method PointerEnter(seat: Seat, window: Window, serial: nat, x: real, y: real)
    modifies seat`pointerWindow, seat`calls, window`pointerX, window`pointerY
    ensures seat.pointerWindow == Some(window)
    ensures window.pointerX == x && window.pointerY == y
    ensures seat.calls == old(seat.calls) +
      (if window.handlers.onEnter then [PointerCall(window, Enter(serial), x, y, Some(window))] else [])
  {
    seat.pointerWindow := Some(window);
    window.pointerX := x;
    window.pointerY := y;
    if window.handlers.onEnter {
      seat.calls := seat.calls + [PointerCall(window, Enter(serial), x, y, seat.pointerWindow)];
    }
  }

  /** pointer_leave: the leave callback, if any, runs while the seat still
      tracks the window; afterwards the seat tracks none. */
  method PointerLeave(seat: Seat, window: Window, serial: nat)
    modifies seat`pointerWindow, seat`calls
    ensures seat.pointerWindow.None?
    ensures seat.calls == old(seat.calls) +
      (if window.handlers.onLeave
       then [PointerCall(window, Leave(serial), window.pointerX, window.pointerY, old(seat.pointerWindow))]
       else [])
  {
    if window.handlers.onLeave {
      seat.calls := seat.calls + [PointerCall(window, Leave(serial), window.pointerX, window.pointerY, seat.pointerWindow)];
    }
    seat.pointerWindow := None;
  }

  /** The window the seat's pointer is over, as a set of at most one. */
  function Tracked(seat: Seat): (r: set<Window>)
    reads seat
    ensures |r| <= 1
    ensures seat.pointerWindow.Some? ==> seat.pointerWindow.value in r
  {
    if seat.pointerWindow.Some? then {seat.pointerWindow.value} else {}
  }

  /** pointer_motion: ignored when the seat tracks no window; otherwise the
      tracked window's pointer position moves and its move callback, if
      any, runs. */
  method PointerMotion(seat: Seat, time: nat, x: real, y: real)
    modifies seat`calls, Tracked(seat)`pointerX, Tracked(seat)`pointerY
    ensures seat.pointerWindow == old(seat.pointerWindow)
    ensures seat.pointerWindow.None? ==> seat.calls == old(seat.calls)
    ensures seat.pointerWindow.Some? ==>
      var w := seat.pointerWindow.value;
      && w.pointerX == x && w.pointerY == y
      && seat.calls == old(seat.calls) + (if w.handlers.onMove then [PointerCall(w, Move(time), x, y, Some(w))] else [])
      && w.handlers == old(w.handlers) && w.buffers == old(w.buffers) && w.needsDraw == old(w.needsDraw)
  {
    if seat.pointerWindow.None? {
      return;
    }
    var w := seat.pointerWindow.value;
    w.pointerX := x;
    w.pointerY := y;
    if w.handlers.onMove {
      seat.calls := seat.calls + [PointerCall(w, Move(time), x, y, Some(w))];
    }
  }

  /** The call a tracked window's callback receives for an event that does
      not move the pointer, when the callback is set. */
  function Forwarded(seat: Seat, kind: PointerCallKind, handlerSet: bool): (calls: seq<PointerCall>)
    reads seat, if seat.pointerWindow.Some? then {seat.pointerWindow.value} else {}
    ensures |calls| <= 1
    ensures |calls| == 1 <==> seat.pointerWindow.Some? && handlerSet
    ensures |calls| == 1 ==> calls[0].window == seat.pointerWindow.value && calls[0].kind == kind
  {
    if seat.pointerWindow.None? || !handlerSet then []
    else
      var w := seat.pointerWindow.value;
      [PointerCall(w, kind, w.pointerX, w.pointerY, Some(w))]
  }

  /** pointer_button: forwarded to the tracked window's button callback. */
  method PointerButton(seat: Seat, serial: nat, time: nat, button: nat, state: nat)
    modifies seat`calls
    ensures seat.calls == old(seat.calls) + Forwarded(seat, Button(serial, time, button, state),
      seat.pointerWindow.Some? && seat.pointerWindow.value.handlers.onButton)
  {
    if seat.pointerWindow.None? {
      return;
    }
    var w := seat.pointerWindow.value;
    if w.handlers.onButton {
      seat.calls := seat.calls + [PointerCall(w, Button(serial, time, button, state), w.pointerX, w.pointerY, Some(w))];
    }
  }

  /** pointer_axis: forwarded to the tracked window's axis callback with
      the value converted from wl_fixed. */
  method PointerAxis(seat: Seat, time: nat, axis: nat, value: real)
    modifies seat`calls
    ensures seat.calls == old(seat.calls) + Forwarded(seat, Axis(time, axis, value),
      seat.pointerWindow.Some? && seat.pointerWindow.value.handlers.onAxis)
  {
    if seat.pointerWindow.None? {
      return;
    }
    var w := seat.pointerWindow.value;
    if w.handlers.onAxis {
      seat.calls := seat.calls + [PointerCall(w, Axis(time, axis, value), w.pointerX, w.pointerY, Some(w))];
    }
  }

  /** pointer_frame: forwarded to the tracked window's frame callback. */
  method PointerFrame(seat: Seat)
    modifies seat`calls
    ensures seat.calls == old(seat.calls) + Forwarded(seat, Frame,
      seat.pointerWindow.Some? && seat.pointerWindow.value.handlers.onFrame)
  {
    if seat.pointerWindow.None? {
      return;
    }
    var w := seat.pointerWindow.value;
    if w.handlers.onFrame {
      seat.calls := seat.calls + [PointerCall(w, Frame, w.pointerX, w.pointerY, Some(w))];
    }
  }

  /** seat_capabilities: a seat announcing a pointer gets one and tracks no
      window yet; without the pointer bit nothing changes. */
  method Capabilities(seat: Seat, capabilities: bv32)
    modifies seat`hasPointer, seat`pointerWindow
    ensures capabilities & WL_SEAT_CAPABILITY_POINTER != 0 ==> seat.hasPointer && seat.pointerWindow.None?
    ensures capabilities & WL_SEAT_CAPABILITY_POINTER == 0 ==>
      seat.hasPointer == old(seat.hasPointer) && seat.pointerWindow == old(seat.pointerWindow)
  {
    if capabilities & WL_SEAT_CAPABILITY_POINTER != 0 {
      seat.hasPointer := true;
      seat.pointerWindow := None;
    }
  }

  /** seat_name: the latest name replaces any earlier one. */
  method Name(seat: Seat, name: string)
    modifies seat`name
    ensures seat.name == Some(name)
  {
    seat.name := Some(name);
  }

  /** wlm_seat_create: a new seat for the bound wl_seat, linked at the head
      of the display's seat list. */
  method Create(d: Display, proxyId: nat, globalName: nat) returns (seat: Seat)
    requires Distinct(d.seats)
    modifies d`seats
    ensures fresh(seat) && seat.proxyId == proxyId && seat.globalName == globalName
    ensures !seat.hasPointer && seat.pointerWindow.None? && seat.name.None? && seat.calls == []
    ensures d.seats == [seat] + old(d.seats) && Distinct(d.seats)
  {
    seat := new Seat(proxyId, globalName);
    DistinctCons(seat, d.seats);
    d.seats := [seat] + d.seats;
  }

  /** wlm_seat_destroy: the seat is unlinked from the display's list. */
  method Destroy(d: Display, seat: Seat)
    requires Distinct(d.seats)
    modifies d`seats
    ensures d.seats == Without(old(d.seats), seat) && seat !in d.seats && Distinct(d.seats)
  {
    WithoutMembers(d.seats, seat, seat);
    WithoutDistinct(d.seats, seat);
    d.seats := Without(d.seats, seat);
  }

  /** wlm_seat_set_cursor: the pointer shows the cursor's first image, or
      no cursor at all for NULL. */
  method SetCursor(seat: Seat, serial: nat, cursor: Option<CursorRef>)
    modifies seat`cursor
    ensures seat.cursor == cursor
  {
    seat.cursor := cursor;
  }

  /** wlm_seat_set_theme_cursor: succeeds exactly when the display finds
      the cursor, and only then changes the pointer's image. */
  method SetThemeCursor(d: Display, seat: Seat, serial: nat, themeName: Option<string>, bpp: nat, name: Option<string>,
                        load: (Option<string>, nat) -> Option<ThemeHandle>,
                        lookup: (ThemeHandle, string) -> Option<CursorRef>)
    returns (ok: bool)
    modifies d`themes, d.themes`cursors, seat`cursor
    ensures ok <==> old(Cursors.FoundCursor(d, themeName, bpp, name, load, lookup)).Some?
    ensures ok ==> seat.cursor == old(Cursors.FoundCursor(d, themeName, bpp, name, load, lookup))
    ensures name.None? ==> !ok
    ensures !ok ==> seat.cursor == old(seat.cursor)
    ensures ok ==>
      && seat.cursor.Some? && name.Some?
      && var k := Cursors.ThemeFor(d.themes, themeName, Cursors.NormalSize(bpp));
      && k.Some?
      && var j := Cursors.CursorFor(d.themes[k.value].cursors, name.value);
      && j.Some? && d.themes[k.value].cursors[j.value].cursor == seat.cursor.value
  {
    var cursor := Cursors.GetCursor(d, themeName, bpp, name, load, lookup);
    if cursor.None? {
      return false;
    }
    SetCursor(seat, serial, cursor);
    return true;
  }
}
