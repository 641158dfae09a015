/** State of the wlmatchbox compositor (src/wlmatchbox/server.h, output.h,
    toplevel.h). wlroots objects are named by abstract ids; the per-window
    and per-output records live in maps owned by the server, so the fields
    the handlers update in place (toplevel->output, output->panel, the
    foreign handle) are map updates keyed by id. */
module Compositor {
  import opened Common

  type ToplevelId = nat
  type OutputId = nat
  type ClientId = nat
  type SurfaceId = nat
  type KeyboardId = nat
  type PointerId = nat
  type GlobalId = nat

  datatype Point = Point(x: int, y: int)
  datatype Size = Size(width: int, height: int)

  /** The zwlr_foreign_toplevel_handle_v1 advertised for a window: the state
      the compositor last pushed to it. */
  datatype ForeignHandle = ForeignHandle(
    activated: bool,
    maximized: bool,
    title: Option<string>,
    appId: Option<string>)

  /** struct toplevel together with the wlroots xdg_toplevel state the
      handlers read and write. `activated`, `maximized` and `size` are the
      pending xdg_toplevel state sent with the next configure;
      `scheduled` counts only the handlers' own calls of
      wlr_xdg_surface_schedule_configure, not the configures wlroots
      schedules by itself when the pending state changes (set_size,
      set_maximized, set_activated), and not how wlroots merges the
      configures scheduled before the next idle into one;
      `position` is the scene node's position. */
  datatype Toplevel = Toplevel(
    client: ClientId,
    surface: SurfaceId,
    initialized: bool,
    extentHeight: int,
    title: Option<string>,
    appId: Option<string>,
    activated: bool,
    maximized: bool,
    size: Size,
    position: Point,
    scheduled: nat,
    output: Option<OutputId>,
    foreign: Option<ForeignHandle>)
  {
    /** wlr_xdg_toplevel_set_activated together with the matching
        foreign-handle update when a handle exists. */
    function WithActivated(b: bool): (r: Toplevel)
      ensures r.activated == b
      ensures r.foreign.Some? == foreign.Some? && (r.foreign.Some? ==> r.foreign.value.activated == b)
      ensures r.(activated := activated, foreign := foreign) == this
    {
      this.(activated := b,
            foreign := if foreign.Some? then Some(foreign.value.(activated := b)) else None)
    }
  }

  /** What the compositor reads of a wlr_output: its size and the position
      of its scene output (None when it has none). */
  datatype Mode = Mode(width: int, height: int, scene: Option<Point>)

  /** struct output: the wlr_output and the panel window placed on it. */
  datatype Output = Output(mode: Mode, panel: Option<ToplevelId>)

  /** The cursor image: a named xcursor from the theme, or a surface a client
      asked for. */
  datatype CursorImage = Xcursor(name: string) | ClientSurface(surface: Option<SurfaceId>, hotspot: Point)

  /** Where the pointer focus is: the surface and the client that owns it. */
  datatype PointerFocus = PointerFocus(surface: SurfaceId, client: ClientId, local: Point)

  datatype ButtonEvent = ButtonEvent(time: nat, button: nat, state: nat)

  const WL_POINTER_BUTTON_STATE_RELEASED: nat := 0
  const WL_POINTER_BUTTON_STATE_PRESSED: nat := 1

  ghost predicate ListsOk(toplevels: seq<ToplevelId>, tops: map<ToplevelId, Toplevel>,
                         outputs: seq<OutputId>, outs: map<OutputId, Output>)
  {
    && Distinct(toplevels)
    && (forall i :: 0 <= i < |toplevels| ==> toplevels[i] in tops)
    && Distinct(outputs)
    && (forall i :: 0 <= i < |outputs| ==> outputs[i] in outs)
    && (forall o :: o in outs ==> o in outputs)
  }

  /** output->panel never points at a freed toplevel. */
  ghost predicate PanelRefsOk(outs: map<OutputId, Output>, tops: map<ToplevelId, Toplevel>)
  {
    forall o :: o in outs && outs[o].panel.Some? ==> outs[o].panel.value in tops
  }

  /** toplevel->output of one window never points at a freed output. */
  ghost predicate OutputOk(tl: Toplevel, outs: map<OutputId, Output>)
  {
    tl.output.None? || tl.output.value in outs
  }

  ghost predicate OutputRefsOk(tops: map<ToplevelId, Toplevel>, outs: map<OutputId, Output>)
  {
    forall t :: t in tops ==> OutputOk(tops[t], outs)
  }

  ghost predicate CoreOf(toplevels: seq<ToplevelId>, tops: map<ToplevelId, Toplevel>,
                        outputs: seq<OutputId>, outs: map<OutputId, Output>)
  {
    ListsOk(toplevels, tops, outputs, outs) && PanelRefsOk(outs, tops)
  }

  class Server {
    /** server->outputs; head = newest. */
    var outputs: seq<OutputId>
    var outs: map<OutputId, Output>
    /** server->toplevels: the mapped windows; head = most recently focused. */
    var toplevels: seq<ToplevelId>
    /** Every toplevel created and not yet destroyed. */
    var tops: map<ToplevelId, Toplevel>
    /** server->keyboards and the pointers attached to the cursor. */
    var keyboards: seq<KeyboardId>
    var pointers: seq<PointerId>
    /** wlr_seat_get_keyboard(seat) != NULL. */
    var hasKeyboard: bool
    var caps: bv32
    /** seat->keyboard_state.focused_surface. */
    var keyboardFocus: Option<SurfaceId>
    /** seat->pointer_state.focused_surface and focused_client. */
    var pointerFocus: Option<PointerFocus>
    var cursor: CursorImage
    /** Button events forwarded to the client with pointer focus. */
    var buttons: seq<ButtonEvent>
    var panelClient: Option<ClientId>
    /** Whether panel_client_destroy is linked to the panel client. */
    var panelListener: bool

    /** The intrusive lists hold each node once and only live records, and
        output->panel never points at a freed window. */
    ghost predicate Core()
      reads this
    {
      CoreOf(toplevels, tops, outputs, outs)
    }

    ghost predicate Valid()
      reads this
    {
      Core() && OutputRefsOk(tops, outs)
    }

    constructor ()
      ensures Valid()
      ensures outputs == [] && toplevels == [] && tops == map[] && keyboards == []
      ensures panelClient == None && !panelListener && keyboardFocus == None && pointerFocus == None
    {
      outputs := [];
      outs := map[];
      toplevels := [];
      tops := map[];
      keyboards := [];
      pointers := [];
      hasKeyboard := false;
      caps := 0;
      keyboardFocus := None;
      pointerFocus := None;
      cursor := Xcursor("default");
      buttons := [];
      panelClient := None;
      panelListener := false;
    }
  }
}
