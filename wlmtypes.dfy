/** The records of the libwlmatchapp client library (the structs of
    include/wlmatchapp and of the library's internal headers): shm buffers, windows,
    xdg toplevels, seats, cursor themes and the display that links them.
    Every intrusive wl_list becomes a `seq` field, head first; the protocol
    objects a record holds (wl_surface, xdg_toplevel, wl_pointer, ...) are
    represented only by what the library reads back from them. */
module WlmTypes {
  import opened Common

  /** wl_output proxies a surface can enter. */
  type OutputRef = nat
  /** wl_cursor_theme and wl_cursor objects of libwayland-cursor. */
  type ThemeHandle = nat
  type CursorRef = nat

  const WL_SHM_FORMAT_XRGB8888: nat := 1

  /** struct buffer: a wl_buffer over a shared-memory mapping. Only `busy`
      changes after creation. */
  class Buffer {
    var busy: bool
    const width: nat
    const height: nat
    const stride: nat
    const format: nat
    const size: nat

    /** The calloc'ed record filled in by buffer_create: not busy. */
    constructor (width: nat, height: nat, stride: nat, format: nat, size: nat)
      ensures this.width == width && this.height == height && this.stride == stride
      ensures this.format == format && this.size == size && !busy
    {
      this.width := width;
      this.height := height;
      this.stride := stride;
      this.format := format;
      this.size := size;
      busy := false;
    }
  }

  /** Which pointer callbacks of a window are set (non-NULL). */
  datatype PointerHandlers = PointerHandlers(
    onEnter: bool, onLeave: bool, onMove: bool, onButton: bool, onAxis: bool, onFrame: bool)

  /** struct wlm_window. `frame` says whether a frame callback is pending,
      `attached` is the buffer last attached to the surface, and
      `pointerX`/`pointerY` are the pointer position in surface
      coordinates. */
  class Window {
    var width: nat
    var height: nat
    var output: Option<OutputRef>
    var hasOnDraw: bool
    var handlers: PointerHandlers
    var pointerX: real
    var pointerY: real
    var buffers: seq<Buffer>
    var needsDraw: bool
    var frame: bool
    var configured: bool
    var needsCommit: bool
    var attached: Option<Buffer>

    /** The zeroed record the caller allocates before wlm_window_init. */
    constructor ()
      ensures width == 0 && height == 0 && output.None? && !hasOnDraw && buffers == []
      ensures !needsDraw && !frame && !configured && !needsCommit && attached.None?
    {
      width := 0;
      height := 0;
      output := None;
      hasOnDraw := false;
      handlers := PointerHandlers(false, false, false, false, false, false);
      pointerX := 0.0;
      pointerY := 0.0;
      buffers := [];
      needsDraw := false;
      frame := false;
      configured := false;
      needsCommit := false;
      attached := None;
    }
  }

  /** The `configure` block of struct wlm_toplevel. */
  datatype ToplevelConfigure = ToplevelConfigure(
    width: nat, height: nat, boundsWidth: nat, boundsHeight: nat,
    maximized: bool, fullscreen: bool, resizing: bool, activated: bool)

  /** The `wm_cap` block of struct wlm_toplevel. */
  datatype WmCapabilities = WmCapabilities(windowMenu: bool, maximize: bool, fullscreen: bool, minimize: bool)

  /** The xdg_toplevel requests the library sends. */
  datatype ToplevelRequest =
    | RequestMaximized
    | RequestUnmaximized
    | RequestFullscreen(output: OutputRef)
    | RequestUnfullscreen
    | RequestMinimized
    | RequestAppId(appId: string)
    | RequestTitle(title: string)

  /** struct wlm_toplevel: an xdg toplevel around its base window. */
  class AppToplevel {
    const base: Window
    var configure: ToplevelConfigure
    var wmCap: WmCapabilities
    var hasOnClose: bool
    /** Requests sent on the xdg_toplevel, oldest first. */
    var sent: seq<ToplevelRequest>

    /** The calloc'ed record of wlm_toplevel_create around `base`. */
    constructor (base: Window)
      ensures this.base == base && sent == [] && !hasOnClose
      ensures configure == ToplevelConfigure(0, 0, 0, 0, false, false, false, false)
      ensures wmCap == WmCapabilities(false, false, false, false)
    {
      this.base := base;
      configure := ToplevelConfigure(0, 0, 0, 0, false, false, false, false);
      wmCap := WmCapabilities(false, false, false, false);
      hasOnClose := false;
      sent := [];
    }
  }

  /** What a pointer callback of a window is called for. */
  datatype PointerCallKind =
    | Enter(serial: nat)
    | Leave(serial: nat)
    | Move(time: nat)
    | Button(serial: nat, time: nat, button: nat, state: nat)
    | Axis(time: nat, axis: nat, value: real)
    | Frame

  /** One call of a window's pointer callback, with what the callback
      observes: the window's pointer position and the window the seat
      tracks at the moment of the call. */
  datatype PointerCall = PointerCall(window: Window, kind: PointerCallKind, x: real, y: real, tracked: Option<Window>)

  /** struct wlm_seat. `proxyId` is wl_proxy_get_id of its wl_seat proxy;
      `globalName` is the registry name the wl_seat was bound from. */
  class Seat {
    const proxyId: nat
    const globalName: nat
    var hasPointer: bool
    var name: Option<string>
    var pointerWindow: Option<Window>
    /** The cursor image last set on the pointer (None hides it). */
    var cursor: Option<CursorRef>
    /** Calls of the windows' pointer callbacks, oldest first. */
    var calls: seq<PointerCall>

    /** The calloc'ed record of wlm_seat_create. */
    constructor (proxyId: nat, globalName: nat)
      ensures this.proxyId == proxyId && this.globalName == globalName
      ensures !hasPointer && name.None? && pointerWindow.None? && cursor.None? && calls == []
    {
      this.proxyId := proxyId;
      this.globalName := globalName;
      hasPointer := false;
      name := None;
      pointerWindow := None;
      cursor := None;
      calls := [];
    }
  }

  /** struct cursor: a cursor cached by name. */
  datatype CachedCursor = CachedCursor(name: string, cursor: CursorRef)

  /** struct cursor_theme: a loaded theme and the cursors taken from it. */
  class CursorTheme {
    const name: Option<string>
    const bpp: nat
    const theme: ThemeHandle
    var cursors: seq<CachedCursor>

    constructor (name: Option<string>, bpp: nat, theme: ThemeHandle)
      ensures this.name == name && this.bpp == bpp && this.theme == theme && cursors == []
    {
      this.name := name;
      this.bpp := bpp;
      this.theme := theme;
      cursors := [];
    }
  }

  /** struct wlm_display: the globals bound so far and the lists of seats,
      shm formats, windows, toplevels and cursor themes. */
  class Display {
    var connected: bool
    var hasCompositor: bool
    var hasShm: bool
    var hasWmBase: bool
    var needsRoundtrip: bool
    var seats: seq<Seat>
    var shmFormats: seq<nat>
    var windows: seq<Window>
    var toplevels: seq<AppToplevel>
    var themes: seq<CursorTheme>

    /** wlm_display_create: nothing bound, every list empty. */
    constructor ()
      ensures !connected && !hasCompositor && !hasShm && !hasWmBase && !needsRoundtrip
      ensures seats == [] && shmFormats == [] && windows == [] && toplevels == [] && themes == []
    {
      connected := false;
      hasCompositor := false;
      hasShm := false;
      hasWmBase := false;
      needsRoundtrip := false;
      seats := [];
      shmFormats := [];
      windows := [];
      toplevels := [];
      themes := [];
    }
  }
}
