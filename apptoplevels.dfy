/** xdg toplevels of the client library (src/libwlmatchapp/toplevel.c): the
    configure, bounds and capability events decoded into the toplevel's
    record, creation and destruction around a base window, and the
    requests a client makes of the compositor. */
module AppToplevels {
  import opened Common
  import opened WlmTypes
  import Windows

  /** enum xdg_toplevel_state of the xdg-shell protocol. */
  const XDG_TOPLEVEL_STATE_MAXIMIZED: nat := 1
  const XDG_TOPLEVEL_STATE_FULLSCREEN: nat := 2
  const XDG_TOPLEVEL_STATE_RESIZING: nat := 3
  const XDG_TOPLEVEL_STATE_ACTIVATED: nat := 4

  /** enum xdg_toplevel_wm_capabilities of the xdg-shell protocol. */
  const XDG_TOPLEVEL_WM_CAPABILITIES_WINDOW_MENU: nat := 1
  const XDG_TOPLEVEL_WM_CAPABILITIES_MAXIMIZE: nat := 2
  const XDG_TOPLEVEL_WM_CAPABILITIES_FULLSCREEN: nat := 3
  const XDG_TOPLEVEL_WM_CAPABILITIES_MINIMIZE: nat := 4

  /** xdg_toplevel_configure: the suggested size is stored as uint32_t and
      each state flag is set exactly when the state occurs in the array;
      unknown states are ignored and the bounds are untouched. */
  method Configure(t: AppToplevel, width: int, height: int, states: seq<nat>)
    modifies t`configure
    ensures t.configure.width == ToU32(width) && t.configure.height == ToU32(height)
    ensures t.configure.boundsWidth == old(t.configure.boundsWidth)
    ensures t.configure.boundsHeight == old(t.configure.boundsHeight)
    ensures t.configure.maximized <==> XDG_TOPLEVEL_STATE_MAXIMIZED in states
    ensures t.configure.fullscreen <==> XDG_TOPLEVEL_STATE_FULLSCREEN in states
    ensures t.configure.resizing <==> XDG_TOPLEVEL_STATE_RESIZING in states
    ensures t.configure.activated <==> XDG_TOPLEVEL_STATE_ACTIVATED in states
  {
    t.configure := t.configure.(width := ToU32(width), height := ToU32(height),
      maximized := false, fullscreen := false, resizing := false, activated := false);
    var i := 0;
    while i < |states|
      invariant 0 <= i <= |states|
      invariant t.configure.width == ToU32(width) && t.configure.height == ToU32(height)
      invariant t.configure.boundsWidth == old(t.configure.boundsWidth)
      invariant t.configure.boundsHeight == old(t.configure.boundsHeight)
      invariant t.configure.maximized <==> XDG_TOPLEVEL_STATE_MAXIMIZED in states[..i]
      invariant t.configure.fullscreen <==> XDG_TOPLEVEL_STATE_FULLSCREEN in states[..i]
      invariant t.configure.resizing <==> XDG_TOPLEVEL_STATE_RESIZING in states[..i]
      invariant t.configure.activated <==> XDG_TOPLEVEL_STATE_ACTIVATED in states[..i]
    {
      assert states[..i + 1] == states[..i] + [states[i]];
      var s := states[i];
      if s == XDG_TOPLEVEL_STATE_MAXIMIZED {
        t.configure := t.configure.(maximized := true);
      } else if s == XDG_TOPLEVEL_STATE_FULLSCREEN {
        t.configure := t.configure.(fullscreen := true);
      } else if s == XDG_TOPLEVEL_STATE_RESIZING {
        t.configure := t.configure.(resizing := true);
      } else if s == XDG_TOPLEVEL_STATE_ACTIVATED {
        t.configure := t.configure.(activated := true);
      }
      i := i + 1;
    }
    assert states[..i] == states;
  }

  /** xdg_toplevel_configure_bounds: the bounds are stored as uint32_t and
      nothing else changes. */
  method ConfigureBounds(t: AppToplevel, width: int, height: int)
    modifies t`configure
    ensures t.configure == old(t.configure).(boundsWidth := ToU32(width), boundsHeight := ToU32(height))
  {
    t.configure := t.configure.(boundsWidth := ToU32(width), boundsHeight := ToU32(height));
  }

  /** xdg_toplevel_wm_capabilities: a capability is set exactly when the
      compositor lists it; unknown values are ignored. */
  method WmCapabilitiesEvent(t: AppToplevel, capabilities: seq<nat>)
    modifies t`wmCap
    ensures t.wmCap.windowMenu <==> XDG_TOPLEVEL_WM_CAPABILITIES_WINDOW_MENU in capabilities
    ensures t.wmCap.maximize <==> XDG_TOPLEVEL_WM_CAPABILITIES_MAXIMIZE in capabilities
    ensures t.wmCap.fullscreen <==> XDG_TOPLEVEL_WM_CAPABILITIES_FULLSCREEN in capabilities
    ensures t.wmCap.minimize <==> XDG_TOPLEVEL_WM_CAPABILITIES_MINIMIZE in capabilities
  {
    t.wmCap := WmCapabilities(false, false, false, false);
    var i := 0;
    while i < |capabilities|
      invariant 0 <= i <= |capabilities|
      invariant t.wmCap.windowMenu <==> XDG_TOPLEVEL_WM_CAPABILITIES_WINDOW_MENU in capabilities[..i]
      invariant t.wmCap.maximize <==> XDG_TOPLEVEL_WM_CAPABILITIES_MAXIMIZE in capabilities[..i]
      invariant t.wmCap.fullscreen <==> XDG_TOPLEVEL_WM_CAPABILITIES_FULLSCREEN in capabilities[..i]
      invariant t.wmCap.minimize <==> XDG_TOPLEVEL_WM_CAPABILITIES_MINIMIZE in capabilities[..i]
    {
      assert capabilities[..i + 1] == capabilities[..i] + [capabilities[i]];
      var c := capabilities[i];
      if c == XDG_TOPLEVEL_WM_CAPABILITIES_WINDOW_MENU {
        t.wmCap := t.wmCap.(windowMenu := true);
      } else if c == XDG_TOPLEVEL_WM_CAPABILITIES_MAXIMIZE {
        t.wmCap := t.wmCap.(maximize := true);
      } else if c == XDG_TOPLEVEL_WM_CAPABILITIES_FULLSCREEN {
        t.wmCap := t.wmCap.(fullscreen := true);
      } else if c == XDG_TOPLEVEL_WM_CAPABILITIES_MINIMIZE {
        t.wmCap := t.wmCap.(minimize := true);
      }
      i := i + 1;
    }
    assert capabilities[..i] == capabilities;
  }

  /** wlm_toplevel_create: a new toplevel around a new base window linked
      at the head of the display's window list, itself linked at the head
      of the display's toplevel list; every capability is assumed until
      the compositor says otherwise, and the role must be committed. */
  method Create(d: Display) returns (t: AppToplevel)
    requires Distinct(d.windows) && Distinct(d.toplevels)
    modifies d`windows, d`toplevels
    ensures fresh(t) && fresh(t.base)
    ensures d.windows == [t.base] + old(d.windows) && Distinct(d.windows)
    ensures d.toplevels == [t] + old(d.toplevels) && Distinct(d.toplevels)
    ensures t.wmCap == WmCapabilities(true, true, true, true)
    ensures t.configure == ToplevelConfigure(0, 0, 0, 0, false, false, false, false)
    ensures t.sent == [] && !t.hasOnClose
    ensures t.base.needsCommit && t.base.needsDraw && t.base.buffers == []
    ensures !t.base.configured && !t.base.frame && t.base.attached.None?
  {
    var base := new Window();
    Windows.Init(d, base);
    t := new AppToplevel(base);
    t.wmCap := WmCapabilities(true, true, true, true);
    base.needsCommit := true;
    DistinctCons(t, d.toplevels);
    d.toplevels := [t] + d.toplevels;
  }

  /** wlm_toplevel_destroy: the toplevel is unlinked from the display's
      toplevel list and its base window is torn down. */
  method Destroy(d: Display, t: AppToplevel)
    requires Distinct(d.windows) && Distinct(d.toplevels)
    modifies d`windows, d`toplevels, t.base`buffers
    ensures d.toplevels == Without(old(d.toplevels), t) && t !in d.toplevels && Distinct(d.toplevels)
    ensures d.windows == Without(old(d.windows), t.base) && t.base !in d.windows && Distinct(d.windows)
    ensures t.base.buffers == []
  {
    WithoutMembers(d.toplevels, t, t);
    WithoutDistinct(d.toplevels, t);
    d.toplevels := Without(d.toplevels, t);
    Windows.Deinit(d, t.base);
  }

  /** wlm_toplevel_set_maximized: the matching request is sent and a
      commit is due. */
  method SetMaximized(t: AppToplevel, maximized: bool)
    modifies t`sent, t.base`needsCommit
    ensures t.sent == old(t.sent) + [if maximized then RequestMaximized else RequestUnmaximized]
    ensures t.base.needsCommit
  {
    if maximized {
      t.sent := t.sent + [RequestMaximized];
    } else {
      t.sent := t.sent + [RequestUnmaximized];
    }
    t.base.needsCommit := true;
  }

  /** wlm_toplevel_set_fullscreen: going fullscreen needs an output the
      window is on, and without one nothing is sent and no commit becomes
      due; leaving fullscreen is always sent. */
  method SetFullscreen(t: AppToplevel, fullscreen: bool)
    modifies t`sent, t.base`needsCommit
    ensures fullscreen && t.base.output.Some? ==>
      t.sent == old(t.sent) + [RequestFullscreen(t.base.output.value)] && t.base.needsCommit
    ensures fullscreen && t.base.output.None? ==>
      t.sent == old(t.sent) && t.base.needsCommit == old(t.base.needsCommit)
    ensures !fullscreen ==> t.sent == old(t.sent) + [RequestUnfullscreen] && t.base.needsCommit
  {
    if fullscreen {
      if t.base.output.Some? {
        t.sent := t.sent + [RequestFullscreen(t.base.output.value)];
        t.base.needsCommit := true;
      }
    } else {
      t.sent := t.sent + [RequestUnfullscreen];
      t.base.needsCommit := true;
    }
  }

  /** wlm_toplevel_set_minimized. */
  method SetMinimized(t: AppToplevel)
    modifies t`sent, t.base`needsCommit
    ensures t.sent == old(t.sent) + [RequestMinimized] && t.base.needsCommit
  {
    t.sent := t.sent + [RequestMinimized];
    t.base.needsCommit := true;
  }

  /** wlm_toplevel_set_app_id. */
  method SetAppId(t: AppToplevel, appId: string)
    modifies t`sent, t.base`needsCommit
    ensures t.sent == old(t.sent) + [RequestAppId(appId)] && t.base.needsCommit
  {
    t.sent := t.sent + [RequestAppId(appId)];
    t.base.needsCommit := true;
  }

  /** wlm_toplevel_set_title. */
  method SetTitle(t: AppToplevel, title: string)
    modifies t`sent, t.base`needsCommit
    ensures t.sent == old(t.sent) + [RequestTitle(title)] && t.base.needsCommit
  {
    t.sent := t.sent + [RequestTitle(title)];
    t.base.needsCommit := true;
  }
}
