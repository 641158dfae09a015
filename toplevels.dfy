/** Window management of the compositor (src/wlmatchbox/toplevel.c): the
    panel role, the geometry policy, output assignment with the output's
    panel back-reference, and keyboard focus over the focus stack. */
module Toplevels {
  import opened Common
  import opened Compositor

  /** is_panel: never stored, it compares the window's client with the
      server's panel client at the time of the call. */
  predicate IsPanel(panelClient: Option<ClientId>, tl: Toplevel)
  {
    panelClient == Some(tl.client)
  }

  /** The mode of output o, if it is live. */
  function ModeOf(outs: map<OutputId, Output>, o: Option<OutputId>): Option<Mode>
  {
    if o.Some? && o.value in outs then Some(outs[o.value].mode) else None
  }

  /** Height of the surface extents of the panel placed on output o, if
      any. */
  function PanelExtent(outs: map<OutputId, Output>, tops: map<ToplevelId, Toplevel>, o: Option<OutputId>)
    : Option<int>
  {
    if o.Some? && o.value in outs && outs[o.value].panel.Some? && outs[o.value].panel.value in tops
    then Some(tops[outs[o.value].panel.value].extentHeight)
    else None
  }

  /** The panel extents toplevel_configure reads: none for a panel-role
      window, otherwise those of its output's panel. */
  function ExtentFor(panel: bool, outs: map<OutputId, Output>, tops: map<ToplevelId, Toplevel>, o: Option<OutputId>)
    : Option<int>
  {
    if panel then None else PanelExtent(outs, tops, o)
  }

  /** The oldest output, the tail of server->outputs. */
  function OldestOutput(outputs: seq<OutputId>): (r: Option<OutputId>)
    ensures r.Some? <==> |outputs| > 0
    ensures r.Some? ==> r.value in outputs
  {
    if |outputs| > 0 then Some(outputs[|outputs| - 1]) else None
  }

  /** The pending state toplevel_configure leaves on a window, given its
      role, its output and the extents height of that output's panel. */
  function Configured(tl: Toplevel, panel: bool, out: Option<Mode>, extent: Option<int>): (r: Toplevel)
  {
    var offset := if !panel && out.Some? && extent.Some? then extent.value else 0;
    var width := if out.Some? then out.value.width - 1 else 0;
    var height := if panel || out.None? then 0 else out.value.height - 1 - offset;
    tl.(size := Size(width, height),
        maximized := tl.maximized || !panel,
        position := if out.Some? && out.value.scene.Some?
                    then Point(out.value.scene.value.x, out.value.scene.value.y + offset)
                    else tl.position,
        foreign := if tl.foreign.Some? then Some(tl.foreign.value.(maximized := true)) else None)
  }

  /** The geometry rules of toplevel_configure. A panel asks for the
      output's width less one, leaves its height to the client, sits at the
      output's origin and is never maximized by the compositor. Every other
      window is maximized, with or without an output, and fills the output
      below the panel: its top edge is the panel's height and its bottom
      edge the output's last row. The foreign handle, when there is one, is
      reported maximized. Nothing else changes. */
  lemma ConfigureGeometry(tl: Toplevel, panel: bool, out: Option<Mode>, extent: Option<int>)
    ensures var r := Configured(tl, panel, out, extent);
      && (panel ==> r.size == Size(if out.Some? then out.value.width - 1 else 0, 0))
      && (panel ==> r.maximized == tl.maximized)
      && (!panel ==> r.maximized)
      && (!panel && out.None? ==> r.size == Size(0, 0))
      && (!panel && out.Some? ==>
            && r.size.width == out.value.width - 1
            && r.size.height == out.value.height - 1 - (if extent.Some? then extent.value else 0))
      && (out.Some? && out.value.scene.Some? ==>
            && r.position.x == out.value.scene.value.x
            && r.position.y == out.value.scene.value.y + (if !panel && extent.Some? then extent.value else 0)
            && (!panel ==> r.position.y + r.size.height == out.value.scene.value.y + out.value.height - 1))
      && (!(out.Some? && out.value.scene.Some?) ==> r.position == tl.position)
      && r.foreign.Some? == tl.foreign.Some?
      && (r.foreign.Some? ==> r.foreign.value == tl.foreign.value.(maximized := true))
      && r.(size := tl.size, maximized := tl.maximized, position := tl.position, foreign := tl.foreign) == tl
  {
  }

  /** toplevel_configure on the server state: the window's pending state
      becomes Configured of its role, its output and that output's panel. */
  method Configure(s: Server, t: ToplevelId)
    requires t in s.tops
    modifies s`tops
    ensures s.tops == old(s.tops)[t := Configured(old(s.tops[t]), IsPanel(s.panelClient, old(s.tops[t])),
                                                  ModeOf(s.outs, old(s.tops[t].output)),
                                                  ExtentFor(IsPanel(s.panelClient, old(s.tops[t])), s.outs,
                                                            old(s.tops), old(s.tops[t].output)))]
  {
    var tl := s.tops[t];
    var panel := IsPanel(s.panelClient, tl);
    s.tops := s.tops[t := Configured(tl, panel, ModeOf(s.outs, tl.output), ExtentFor(panel, s.outs, s.tops, tl.output))];
  }

  /** The record of a window that has just been given an output: once its
      surface is initialized it is reconfigured for that output, with one
      more configure scheduled. */
  function Reassigned(tl: Toplevel, panel: bool, mode: Mode, extent: Option<int>): (r: Toplevel)
    ensures r.output == tl.output && r.surface == tl.surface && r.client == tl.client
    ensures r.initialized == tl.initialized
  {
    if tl.initialized
    then Configured(tl, panel, Some(mode), extent).(scheduled := tl.scheduled + 1)
    else tl
  }

  /** The outputs after a panel window leaves output `from` for output `to`:
      the old output, if it is still live, loses its panel back-reference
      and the new one, if any, points at the window. */
  function PanelHandover(outs: map<OutputId, Output>, from: Option<OutputId>, to: Option<OutputId>, t: ToplevelId)
    : (r: map<OutputId, Output>)
    requires to.Some? ==> to.value in outs
    ensures r.Keys == outs.Keys
    ensures to.Some? ==> r[to.value] == outs[to.value].(panel := Some(t))
    ensures forall q :: q in outs && Some(q) != to ==>
      r[q] == if from == Some(q) then outs[q].(panel := None) else outs[q]
  {
    var cleared := if from.Some? && from.value in outs then outs[from.value := outs[from.value].(panel := None)] else outs;
    if to.Some? then cleared[to.value := cleared[to.value].(panel := Some(t))] else cleared
  }


  /** The outputs naming window t as their panel. */
  function PanelOf(outs: map<OutputId, Output>, t: ToplevelId): set<OutputId>
  {
    set p | p in outs && outs[p].panel == Some(t)
  }

  /** The windows after toplevel_assign_output(t, o). */
  function AssignTops(tops: map<ToplevelId, Toplevel>, outs: map<OutputId, Output>,
                      panelClient: Option<ClientId>, t: ToplevelId, o: OutputId): (r: map<ToplevelId, Toplevel>)
    requires t in tops && o in outs
    ensures r.Keys == tops.Keys
  {
    var panel := IsPanel(panelClient, tops[t]);
    tops[t := Reassigned(tops[t].(output := Some(o)), panel, outs[o].mode, ExtentFor(panel, outs, tops, Some(o)))]
  }

  /** The outputs after toplevel_assign_output(t, o). */
  function AssignOuts(outs: map<OutputId, Output>, tops: map<ToplevelId, Toplevel>,
                      panelClient: Option<ClientId>, t: ToplevelId, o: OutputId): (r: map<OutputId, Output>)
    requires t in tops && o in outs
    ensures r.Keys == outs.Keys
  {
    if IsPanel(panelClient, tops[t]) then PanelHandover(outs, tops[t].output, Some(o), t) else outs
  }

  /** The windows after the first half of toplevel_assign_any_output. */
  function UnassignTops(tops: map<ToplevelId, Toplevel>, t: ToplevelId): map<ToplevelId, Toplevel>
    requires t in tops
  {
    tops[t := tops[t].(output := None)]
  }

  /** The outputs after the first half of toplevel_assign_any_output. */
  function UnassignOuts(outs: map<OutputId, Output>, tops: map<ToplevelId, Toplevel>,
                        panelClient: Option<ClientId>, t: ToplevelId): map<OutputId, Output>
    requires t in tops
  {
    if IsPanel(panelClient, tops[t]) then PanelHandover(outs, tops[t].output, None, t) else outs
  }

  /** toplevel_assign_output moves window t, and only t, to output o, and
      leaves the outputs alone unless t has the panel role. Once its surface
      is initialized the window is reconfigured for o with one more
      configure scheduled; before that only the output is recorded. A panel
      window becomes the panel of o alone, provided no output other than its
      previous one named it before. */
  lemma AssignOutputEffect(tops: map<ToplevelId, Toplevel>, outs: map<OutputId, Output>,
                           panelClient: Option<ClientId>, t: ToplevelId, o: OutputId)
    requires t in tops && o in outs
    ensures var r, q := AssignTops(tops, outs, panelClient, t, o), AssignOuts(outs, tops, panelClient, t, o);
      var tl, panel := tops[t], IsPanel(panelClient, tops[t]);
      && r.Keys == tops.Keys && q.Keys == outs.Keys
      && (forall u :: u in tops && u != t ==> r[u] == tops[u])
      && r[t].output == Some(o)
      && (!tl.initialized ==> r[t] == tl.(output := Some(o)))
      && (tl.initialized ==>
            && r[t].scheduled == tl.scheduled + 1
            && r[t].(scheduled := tl.scheduled) ==
               Configured(tl.(output := Some(o)), panel, ModeOf(outs, Some(o)), ExtentFor(panel, outs, tops, Some(o))))
      && (!panel ==> q == outs)
      && (forall p :: p in outs ==> q[p].mode == outs[p].mode)
      && (forall p :: p in outs && p != o && Some(p) != tl.output ==> q[p] == outs[p])
      && (panel && PanelOf(outs, t) <= (if tl.output.Some? then {tl.output.value} else {}) ==> PanelOf(q, t) == {o})
  {
    var q := AssignOuts(outs, tops, panelClient, t, o);
    if IsPanel(panelClient, tops[t]) {
      assert o in PanelOf(q, t);
    }
  }

  /** The first half of toplevel_assign_any_output leaves window t without
      an output and, for a panel window, no output names it as its panel
      any more; nothing else changes. */
  lemma UnassignEffect(tops: map<ToplevelId, Toplevel>, outs: map<OutputId, Output>,
                       panelClient: Option<ClientId>, t: ToplevelId)
    requires t in tops
    ensures var r, q := UnassignTops(tops, t), UnassignOuts(outs, tops, panelClient, t);
      var tl := tops[t];
      && r.Keys == tops.Keys && q.Keys == outs.Keys
      && (forall u :: u in tops && u != t ==> r[u] == tops[u])
      && r[t] == tl.(output := None)
      && (!IsPanel(panelClient, tl) ==> q == outs)
      && (forall p :: p in outs ==> q[p].mode == outs[p].mode)
      && (IsPanel(panelClient, tl) && PanelOf(outs, t) <= (if tl.output.Some? then {tl.output.value} else {})
          ==> PanelOf(q, t) == {})
  {
  }

  /** Reassigning a live window to a live output keeps the structural
      invariant, and keeps every window's output live when it was. */
  lemma AssignKeepsCore(toplevels: seq<ToplevelId>, tops: map<ToplevelId, Toplevel>,
                        outputs: seq<OutputId>, outs: map<OutputId, Output>,
                        panelClient: Option<ClientId>, t: ToplevelId, o: OutputId)
    requires CoreOf(toplevels, tops, outputs, outs) && t in tops && o in outs
    ensures CoreOf(toplevels, AssignTops(tops, outs, panelClient, t, o), outputs, AssignOuts(outs, tops, panelClient, t, o))
    ensures OutputRefsOk(tops, outs) ==>
      OutputRefsOk(AssignTops(tops, outs, panelClient, t, o), AssignOuts(outs, tops, panelClient, t, o))
  {
    AssignOutputEffect(tops, outs, panelClient, t, o);
  }

  /** Every window other than t has a live output or none. */
  ghost predicate OthersOutputOk(tops: map<ToplevelId, Toplevel>, outs: map<OutputId, Output>, t: ToplevelId)
  {
    forall u :: u in tops && u != t ==> OutputOk(tops[u], outs)
  }

  /** Unassigning window t keeps the structural invariant and leaves every
      output reference live when all the other windows' were. */
  lemma UnassignKeepsCore(toplevels: seq<ToplevelId>, tops: map<ToplevelId, Toplevel>,
                          outputs: seq<OutputId>, outs: map<OutputId, Output>,
                          panelClient: Option<ClientId>, t: ToplevelId)
    requires CoreOf(toplevels, tops, outputs, outs) && t in tops
    ensures CoreOf(toplevels, UnassignTops(tops, t), outputs, UnassignOuts(outs, tops, panelClient, t))
    ensures OthersOutputOk(tops, outs, t) ==>
      OutputRefsOk(UnassignTops(tops, t), UnassignOuts(outs, tops, panelClient, t))
  {
    UnassignEffect(tops, outs, panelClient, t);
  }

  /** toplevel_assign_output on the server state. */
  method AssignOutput(s: Server, t: ToplevelId, o: OutputId)
    requires s.Core() && t in s.tops && OutputOk(s.tops[t], s.outs) && o in s.outs
    modifies s`tops, s`outs
    ensures s.tops == AssignTops(old(s.tops), old(s.outs), s.panelClient, t, o)
    ensures s.outs == AssignOuts(old(s.outs), old(s.tops), s.panelClient, t, o)
    ensures s.Core()
    ensures old(OutputRefsOk(s.tops, s.outs)) ==> OutputRefsOk(s.tops, s.outs)
  {
    AssignKeepsCore(s.toplevels, s.tops, s.outputs, s.outs, s.panelClient, t, o);
    var tl := s.tops[t];
    var panel := IsPanel(s.panelClient, tl);
    // what toplevel_configure reads once output is set: the updates below
    // do not change o's mode nor the extents of o's panel as a non-panel
    // window sees them
    var mode, extent := s.outs[o].mode, ExtentFor(panel, s.outs, s.tops, Some(o));
    if panel {
      if tl.output.Some? {
        var p := tl.output.value;
        s.outs := s.outs[p := s.outs[p].(panel := None)];
      }
      s.outs := s.outs[o := s.outs[o].(panel := Some(t))];
    }
    var updated := tl.(output := Some(o));
    if tl.initialized {
      updated := Configured(updated, panel, Some(mode), extent).(scheduled := tl.scheduled + 1);
    }
    s.tops := s.tops[t := updated];
  }

  /** The windows after toplevel_assign_any_output(t): unassigned, then
      assigned to the oldest output when there is one. */
  function AssignAnyTops(tops: map<ToplevelId, Toplevel>, outs: map<OutputId, Output>, outputs: seq<OutputId>,
                         panelClient: Option<ClientId>, t: ToplevelId): (r: map<ToplevelId, Toplevel>)
    requires t in tops && (|outputs| > 0 ==> outputs[|outputs| - 1] in outs)
    ensures r.Keys == tops.Keys
  {
    var tops1, outs1 := UnassignTops(tops, t), UnassignOuts(outs, tops, panelClient, t);
    match OldestOutput(outputs)
    case None => tops1
    case Some(o) => AssignTops(tops1, outs1, panelClient, t, o)
  }

  /** The outputs after toplevel_assign_any_output(t). */
  function AssignAnyOuts(tops: map<ToplevelId, Toplevel>, outs: map<OutputId, Output>, outputs: seq<OutputId>,
                         panelClient: Option<ClientId>, t: ToplevelId): (r: map<OutputId, Output>)
    requires t in tops && (|outputs| > 0 ==> outputs[|outputs| - 1] in outs)
    ensures r.Keys == outs.Keys
  {
    var tops1, outs1 := UnassignTops(tops, t), UnassignOuts(outs, tops, panelClient, t);
    match OldestOutput(outputs)
    case None => outs1
    case Some(o) => AssignOuts(outs1, tops1, panelClient, t, o)
  }

  /** toplevel_assign_any_output moves window t, and only t, to the oldest
      output, or leaves it without one when there is no output; the outputs
      keep their modes, and are untouched unless t has the panel role. A
      panel window ends up the panel of its new output alone, or of none,
      provided no output other than its previous one named it before. */
  lemma AssignAnyOutputEffect(tops: map<ToplevelId, Toplevel>, outs: map<OutputId, Output>, outputs: seq<OutputId>,
                              panelClient: Option<ClientId>, t: ToplevelId)
    requires t in tops && (|outputs| > 0 ==> outputs[|outputs| - 1] in outs)
    ensures var r, q := AssignAnyTops(tops, outs, outputs, panelClient, t), AssignAnyOuts(tops, outs, outputs, panelClient, t);
      var tl, panel := tops[t], IsPanel(panelClient, tops[t]);
      && r.Keys == tops.Keys && q.Keys == outs.Keys
      && (forall u :: u in tops && u != t ==> r[u] == tops[u])
      && r[t].output == OldestOutput(outputs)
      && r[t].client == tl.client && r[t].surface == tl.surface && r[t].initialized == tl.initialized
      && (!panel ==> q == outs)
      && (forall p :: p in outs ==> q[p].mode == outs[p].mode)
      && (panel && PanelOf(outs, t) <= (if tl.output.Some? then {tl.output.value} else {}) ==>
            PanelOf(q, t) == if |outputs| > 0 then {outputs[|outputs| - 1]} else {})
  {
    UnassignEffect(tops, outs, panelClient, t);
    if |outputs| > 0 {
      AssignOutputEffect(UnassignTops(tops, t), UnassignOuts(outs, tops, panelClient, t), panelClient, t, outputs[|outputs| - 1]);
    }
  }

  /** toplevel_assign_any_output: a panel window gives up its output's
      panel back-reference (skipped when that output is already gone), the
      window is unassigned, and then it is assigned to the oldest output if
      there is one. */
  method AssignAnyOutput(s: Server, t: ToplevelId)
    requires s.Core() && t in s.tops
    modifies s`tops, s`outs
    ensures s.tops == AssignAnyTops(old(s.tops), old(s.outs), s.outputs, s.panelClient, t)
    ensures s.outs == AssignAnyOuts(old(s.tops), old(s.outs), s.outputs, s.panelClient, t)
    ensures s.Core()
    ensures old(OthersOutputOk(s.tops, s.outs, t)) ==> OutputRefsOk(s.tops, s.outs)
  {
    UnassignKeepsCore(s.toplevels, s.tops, s.outputs, s.outs, s.panelClient, t);
    var tl := s.tops[t];
    if IsPanel(s.panelClient, tl) && tl.output.Some? && tl.output.value in s.outs {
      var p := tl.output.value;
      s.outs := s.outs[p := s.outs[p].(panel := None)];
    }
    s.tops := s.tops[t := tl.(output := None)];
    if |s.outputs| > 0 {
      AssignOutput(s, t, s.outputs[|s.outputs| - 1]);
    }
  }

  /** toplevel_try_from_wlr_surface as a function: the first window of the
      focus stack whose xdg surface is the given surface. */
  function FirstWithSurface(toplevels: seq<ToplevelId>, tops: map<ToplevelId, Toplevel>, surface: SurfaceId)
    : (r: Option<ToplevelId>)
    requires forall i :: 0 <= i < |toplevels| ==> toplevels[i] in tops
    ensures r.Some? ==> r.value in toplevels && tops[r.value].surface == surface
    ensures r.None? ==> forall i :: 0 <= i < |toplevels| ==> tops[toplevels[i]].surface != surface
    ensures r.Some? ==> exists i :: 0 <= i < |toplevels| && toplevels[i] == r.value &&
                                    forall j :: 0 <= j < i ==> tops[toplevels[j]].surface != surface
  {
    if toplevels == [] then None
    else if tops[toplevels[0]].surface == surface then Some(toplevels[0])
    else
      var r := FirstWithSurface(toplevels[1..], tops, surface);
      assert forall i :: 1 <= i < |toplevels| ==> toplevels[i] == toplevels[1..][i - 1];
      assert r.Some? ==> exists i :: 0 <= i < |toplevels| && toplevels[i] == r.value &&
                                     forall j :: 0 <= j < i ==> tops[toplevels[j]].surface != surface by {
        if r.Some? {
          var i :| 0 <= i < |toplevels[1..]| && toplevels[1..][i] == r.value &&
                   forall j :: 0 <= j < i ==> tops[toplevels[1..][j]].surface != surface;
          assert toplevels[i + 1] == r.value;
        }
      }
      r
  }

  /** toplevel_try_from_wlr_surface: walks server->toplevels from the head. */
  method TryFromSurface(s: Server, surface: SurfaceId) returns (r: Option<ToplevelId>)
    requires forall i :: 0 <= i < |s.toplevels| ==> s.toplevels[i] in s.tops
    ensures r == FirstWithSurface(s.toplevels, s.tops, surface)
  {
    var i := 0;
    while i < |s.toplevels|
      invariant 0 <= i <= |s.toplevels|
      invariant FirstWithSurface(s.toplevels[i..], s.tops, surface) == FirstWithSurface(s.toplevels, s.tops, surface)
    {
      if s.tops[s.toplevels[i]].surface == surface {
        return Some(s.toplevels[i]);
      }
      assert s.toplevels[i..][1..] == s.toplevels[i + 1..];
      i := i + 1;
    }
    return None;
  }

  /** The window toplevel_focus deactivates: the one try_from finds for the
      surface holding the keyboard focus, if any. */
  function PreviousHolder(toplevels: seq<ToplevelId>, tops: map<ToplevelId, Toplevel>, focus: Option<SurfaceId>)
    : Option<ToplevelId>
    requires forall i :: 0 <= i < |toplevels| ==> toplevels[i] in tops
  {
    if focus.Some? then FirstWithSurface(toplevels, tops, focus.value) else None
  }

  /** The windows after focus moves from `from` to `to`: the first is
      deactivated, the second activated, nothing else changes. */
  function SwitchActivation(tops: map<ToplevelId, Toplevel>, from: Option<ToplevelId>, to: ToplevelId)
    : map<ToplevelId, Toplevel>
    requires to in tops
  {
    var off := if from.Some? && from.value in tops then tops[from.value := tops[from.value].WithActivated(false)] else tops;
    off[to := off[to].WithActivated(true)]
  }

  /** Switching activation touches only the activation state of the two
      windows, and keeps "at most one window is activated": when only the
      previous holder was activated, only the new one is afterwards. */
  lemma SwitchActivationEffect(tops: map<ToplevelId, Toplevel>, from: Option<ToplevelId>, to: ToplevelId)
    requires to in tops
    ensures var r := SwitchActivation(tops, from, to);
      && r.Keys == tops.Keys
      && r[to].activated
      && (forall u :: u in tops ==> r[u].(activated := tops[u].activated, foreign := tops[u].foreign) == tops[u])
      && (forall u :: u in tops && u != to ==> r[u] == if from == Some(u) then tops[u].WithActivated(false) else tops[u])
      && ((forall u :: u in tops && tops[u].activated ==> from == Some(u)) ==>
            forall u :: u in r && r[u].activated ==> u == to)
  {
  }

  /** toplevel_focus: nothing happens for no window or for the window that
      already has keyboard focus. Otherwise the window try_from finds for the
      focused surface is deactivated, the new one moves to the head of the
      focus stack with the others in their order, is activated, and gets the
      keyboard focus when the seat has a keyboard. */
  method Focus(s: Server, t: Option<ToplevelId>)
    requires s.Core()
    requires t.Some? ==> t.value in s.toplevels
    modifies s`toplevels, s`tops, s`keyboardFocus
    ensures s.Core()
    ensures old(OutputRefsOk(s.tops, s.outs)) ==> OutputRefsOk(s.tops, s.outs)
    ensures t.None? || old(s.keyboardFocus) == Some(old(s.tops[t.value].surface)) ==>
      s.toplevels == old(s.toplevels) && s.tops == old(s.tops) && s.keyboardFocus == old(s.keyboardFocus)
    ensures t.Some? && old(s.keyboardFocus) != Some(old(s.tops[t.value].surface)) ==>
      && s.toplevels == [t.value] + Without(old(s.toplevels), t.value)
      && s.tops == SwitchActivation(old(s.tops), PreviousHolder(old(s.toplevels), old(s.tops), old(s.keyboardFocus)), t.value)
      && s.keyboardFocus == (if s.hasKeyboard then Some(s.tops[t.value].surface) else old(s.keyboardFocus))
  {
    if t.None? {
      return;
    }
    var tt := t.value;
    var surface := s.tops[tt].surface;
    var prev := s.keyboardFocus;
    if prev == Some(surface) {
      return;
    }
    var pt := None;
    if prev.Some? {
      pt := TryFromSurface(s, prev.value);
    }
    SwitchActivationEffect(s.tops, pt, tt);
    s.tops := SwitchActivation(s.tops, pt, tt);
    MoveToFront(s.toplevels, tt);
    s.toplevels := [tt] + Without(s.toplevels, tt);
    if s.hasKeyboard {
      s.keyboardFocus := Some(surface);
    }
  }

  /** xdg_toplevel_map: the window is linked at the head of the focus stack
      and focused. */
  method Map(s: Server, t: ToplevelId)
    requires s.Core() && t in s.tops && t !in s.toplevels
    modifies s`toplevels, s`tops, s`keyboardFocus
    ensures s.Core()
    ensures old(OutputRefsOk(s.tops, s.outs)) ==> OutputRefsOk(s.tops, s.outs)
    ensures s.toplevels == [t] + old(s.toplevels)
    ensures old(s.keyboardFocus) == Some(old(s.tops[t].surface)) ==>
      s.tops == old(s.tops) && s.keyboardFocus == old(s.keyboardFocus)
    ensures old(s.keyboardFocus) != Some(old(s.tops[t].surface)) ==>
      && s.tops == SwitchActivation(old(s.tops), PreviousHolder(old(s.toplevels), old(s.tops), old(s.keyboardFocus)), t)
      && s.keyboardFocus == (if s.hasKeyboard then Some(old(s.tops[t].surface)) else old(s.keyboardFocus))
  {
    DistinctCons(t, s.toplevels);
    WithoutHead(t, s.toplevels);
    assert ([t] + s.toplevels)[1..] == s.toplevels;
    s.toplevels := [t] + s.toplevels;
    Focus(s, Some(t));
  }

  /** xdg_toplevel_unmap: the window leaves the focus stack; the others keep
      their order and nothing else changes. */
  method Unmap(s: Server, t: ToplevelId)
    requires s.Core() && t in s.toplevels
    modifies s`toplevels
    ensures s.Core()
    ensures s.toplevels == Without(old(s.toplevels), t)
    ensures t !in s.toplevels
  {
    WithoutDistinct(s.toplevels, t);
    WithoutMembers(s.toplevels, t, t);
    forall i | 0 <= i < |Without(s.toplevels, t)| ensures Without(s.toplevels, t)[i] in s.tops {
      WithoutMembers(s.toplevels, t, Without(s.toplevels, t)[i]);
    }
    s.toplevels := Without(s.toplevels, t);
  }

  /** xdg_toplevel_commit: every commit brings the surface's new extents,
      whose height (what wlr_surface_get_extents reports from then on) is
      recorded; on the initial commit (which wlroots marks by making the
      surface initialized) the window is then configured. */
  method Commit(s: Server, t: ToplevelId, initialCommit: bool, extentHeight: int)
    requires t in s.tops
    modifies s`tops
    ensures !initialCommit ==> s.tops == old(s.tops)[t := old(s.tops[t]).(extentHeight := extentHeight)]
    ensures initialCommit ==>
      var tl := old(s.tops[t]).(initialized := true, extentHeight := extentHeight);
      var panel := IsPanel(s.panelClient, tl);
      s.tops == old(s.tops)[t := Configured(tl, panel, ModeOf(s.outs, tl.output),
                                            ExtentFor(panel, s.outs, old(s.tops)[t := tl], tl.output))]
  {
    s.tops := s.tops[t := s.tops[t].(extentHeight := extentHeight)];
    if initialCommit {
      s.tops := s.tops[t := s.tops[t].(initialized := true)];
      Configure(s, t);
    }
  }

  /** Application windows avoid the panel: once the panel p of output o has
      committed a surface whose extents are e rows high, every other window
      configured for o starts e rows below the output's top edge and ends on
      its last row. */
  lemma WindowsAvoidPanel(tops: map<ToplevelId, Toplevel>, outs: map<OutputId, Output>,
                          panelClient: Option<ClientId>, p: ToplevelId, e: int, tl: Toplevel, o: OutputId)
    requires p in tops && o in outs && outs[o].panel == Some(p) && outs[o].mode.scene.Some?
    requires !IsPanel(panelClient, tl)
    ensures var after := tops[p := tops[p].(extentHeight := e)];
      var mode := outs[o].mode;
      var r := Configured(tl, false, ModeOf(outs, Some(o)), ExtentFor(false, outs, after, Some(o)));
      && r.position.y == mode.scene.value.y + e
      && r.size.height == mode.height - 1 - e
      && r.size.width == mode.width - 1
      && r.maximized
  {
    var after := tops[p := tops[p].(extentHeight := e)];
    assert ExtentFor(false, outs, after, Some(o)) == Some(e);
    ConfigureGeometry(tl, false, ModeOf(outs, Some(o)), ExtentFor(false, outs, after, Some(o)));
  }

  /** A window as toplevel_create records it: no output, no foreign handle,
      nothing requested yet. */
  function NewToplevel(client: ClientId, surface: SurfaceId): (r: Toplevel)
    ensures r.client == client && r.surface == surface
    ensures !r.initialized && !r.activated && !r.maximized && r.scheduled == 0
    ensures r.output.None? && r.foreign.None?
  {
    Toplevel(client, surface, false, 0, None, None, false, false, Size(0, 0), Point(0, 0), 0, None, None)
  }

  /** The handle wlr_foreign_toplevel_handle_v1_create returns: no state,
      no title, no app id. */
  const FRESH_HANDLE := ForeignHandle(false, false, None, None)

  /** The windows after toplevel_create(t): the new record, assigned to the
      oldest output, with a fresh foreign handle unless it has the panel
      role. */
  function CreateTops(tops: map<ToplevelId, Toplevel>, outs: map<OutputId, Output>, outputs: seq<OutputId>,
                      panelClient: Option<ClientId>, t: ToplevelId, client: ClientId, surface: SurfaceId)
    : map<ToplevelId, Toplevel>
    requires |outputs| > 0 ==> outputs[|outputs| - 1] in outs
  {
    var tops1 := tops[t := NewToplevel(client, surface)];
    AssignAnyOutputEffect(tops1, outs, outputs, panelClient, t);
    var r := AssignAnyTops(tops1, outs, outputs, panelClient, t);
    if panelClient == Some(client) then r else r[t := r[t].(foreign := Some(FRESH_HANDLE))]
  }

  /** The outputs after toplevel_create(t). */
  function CreateOuts(tops: map<ToplevelId, Toplevel>, outs: map<OutputId, Output>, outputs: seq<OutputId>,
                      panelClient: Option<ClientId>, t: ToplevelId, client: ClientId, surface: SurfaceId)
    : map<OutputId, Output>
    requires |outputs| > 0 ==> outputs[|outputs| - 1] in outs
  {
    AssignAnyOuts(tops[t := NewToplevel(client, surface)], outs, outputs, panelClient, t)
  }

  /** toplevel_create adds window t and changes no other window. The new
      window belongs to the given client and surface, is neither
      initialized nor activated, is on the oldest output (or none), and has
      a foreign handle exactly when it does not have the panel role at this
      moment. A non-panel window leaves the outputs alone; a panel window
      becomes the panel of the oldest output alone. The structural
      invariant is treated in CreateKeepsCore. */
  lemma CreateEffect(tops: map<ToplevelId, Toplevel>, outputs: seq<OutputId>,
                     outs: map<OutputId, Output>, panelClient: Option<ClientId>, t: ToplevelId,
                     client: ClientId, surface: SurfaceId)
    requires t !in tops && (|outputs| > 0 ==> outputs[|outputs| - 1] in outs)
    requires PanelRefsOk(outs, tops)
    ensures var r, q := CreateTops(tops, outs, outputs, panelClient, t, client, surface),
                        CreateOuts(tops, outs, outputs, panelClient, t, client, surface);
      && r.Keys == tops.Keys + {t}
      && (forall u :: u in tops ==> r[u] == tops[u])
      && r[t].client == client && r[t].surface == surface && !r[t].initialized && !r[t].activated
      && r[t].output == OldestOutput(outputs)
      && r[t].foreign == (if IsPanel(panelClient, r[t]) then None else Some(FRESH_HANDLE))
      && (!IsPanel(panelClient, r[t]) ==> q == outs)
      && (IsPanel(panelClient, r[t]) ==>
            q.Keys == outs.Keys && PanelOf(q, t) == if |outputs| > 0 then {outputs[|outputs| - 1]} else {})
  {
    var tops1 := tops[t := NewToplevel(client, surface)];
    assert PanelOf(outs, t) == {} by {
      forall p | p in outs ensures outs[p].panel != Some(t) {
      }
    }
    AssignAnyOutputEffect(tops1, outs, outputs, panelClient, t);
  }

  /** toplevel_create keeps the structural invariant, and keeps output
      references live when they were. */
  lemma CreateKeepsCore(toplevels: seq<ToplevelId>, tops: map<ToplevelId, Toplevel>, outputs: seq<OutputId>,
                        outs: map<OutputId, Output>, panelClient: Option<ClientId>, t: ToplevelId,
                        client: ClientId, surface: SurfaceId)
    requires CoreOf(toplevels, tops, outputs, outs) && t !in tops
    ensures var r, q := CreateTops(tops, outs, outputs, panelClient, t, client, surface),
                        CreateOuts(tops, outs, outputs, panelClient, t, client, surface);
      && CoreOf(toplevels, r, outputs, q)
      && (OutputRefsOk(tops, outs) ==> OutputRefsOk(r, q))
  {
    var tops1 := tops[t := NewToplevel(client, surface)];
    AssignAnyOutputEffect(tops1, outs, outputs, panelClient, t);
    UnassignKeepsCore(toplevels, tops1, outputs, outs, panelClient, t);
    if |outputs| > 0 {
      AssignKeepsCore(toplevels, UnassignTops(tops1, t), outputs, UnassignOuts(outs, tops1, panelClient, t),
                      panelClient, t, outputs[|outputs| - 1]);
    }
  }

  /** toplevel_create: the window is recorded, assigned to the oldest output
      (a panel window becoming that output's panel) and, unless it has the
      panel role at this moment, gets a foreign-toplevel handle. */
  method Create(s: Server, t: ToplevelId, client: ClientId, surface: SurfaceId)
    requires s.Core() && t !in s.tops
    modifies s`tops, s`outs
    ensures s.tops == CreateTops(old(s.tops), old(s.outs), s.outputs, s.panelClient, t, client, surface)
    ensures s.outs == CreateOuts(old(s.tops), old(s.outs), s.outputs, s.panelClient, t, client, surface)
    ensures s.Core()
    ensures old(OutputRefsOk(s.tops, s.outs)) ==> OutputRefsOk(s.tops, s.outs)
  {
    CreateKeepsCore(s.toplevels, s.tops, s.outputs, s.outs, s.panelClient, t, client, surface);
    s.tops := s.tops[t := NewToplevel(client, surface)];
    AssignAnyOutput(s, t);
    if !IsPanel(s.panelClient, s.tops[t]) {
      s.tops := s.tops[t := s.tops[t].(foreign := Some(FRESH_HANDLE))];
    }
  }

  /** The outputs with every panel back-reference to window t cleared. */
  function ClearPanel(outs: map<OutputId, Output>, t: ToplevelId): map<OutputId, Output>
  {
    map p | p in outs :: if outs[p].panel == Some(t) then outs[p].(panel := None) else outs[p]
  }

  /** xdg_toplevel_destroy as the source writes it: the foreign handle goes
      with the record, which is freed; the outputs are left as they were.
      wlroots unmaps a mapped surface before it signals destroy, so the
      window is off the focus stack by then. */
  method DestroyAsWritten(s: Server, t: ToplevelId)
    requires t in s.tops && t !in s.toplevels
    modifies s`tops
    ensures s.tops == old(s.tops) - {t}
  {
    s.tops := s.tops - {t};
  }

  /** When the destroyed window was an output's panel, that output is left
      pointing at the freed record: the next toplevel_configure of a window
      on that output reads the panel's surface extents through it. */
  lemma DestroyAsWrittenDangles(outs: map<OutputId, Output>, tops: map<ToplevelId, Toplevel>, t: ToplevelId, p: OutputId)
    requires p in outs && outs[p].panel == Some(t)
    ensures !PanelRefsOk(outs, tops - {t})
  {
  }

  /** xdg_toplevel_destroy with the panel back-reference dropped as well:
      the record goes and no output names it as its panel any more, so the
      structural invariant survives; nothing else changes. As above, the
      window has been unmapped first. */
  method Destroy(s: Server, t: ToplevelId)
    requires s.Core() && t in s.tops && t !in s.toplevels
    modifies s`tops, s`outs
    ensures s.tops == old(s.tops) - {t}
    ensures s.outs == ClearPanel(old(s.outs), t)
    ensures s.Core()
    ensures old(OutputRefsOk(s.tops, s.outs)) ==> OutputRefsOk(s.tops, s.outs)
    ensures PanelOf(s.outs, t) == {}
    ensures forall p :: p in old(s.outs) && old(s.outs)[p].panel != Some(t) ==> s.outs[p] == old(s.outs)[p]
  {
    s.tops := s.tops - {t};
    s.outs := ClearPanel(s.outs, t);
  }

  /** toplevel_foreign_destroy: the handle is forgotten. */
  method ForeignDestroy(s: Server, t: ToplevelId)
    requires t in s.tops
    modifies s`tops
    ensures s.tops == old(s.tops)[t := old(s.tops[t]).(foreign := None)]
  {
    s.tops := s.tops[t := s.tops[t].(foreign := None)];
  }

  /** xdg_toplevel_set_title. wlroots stores the new title in the
      xdg_toplevel before it signals the event, and the handler copies it
      to the foreign handle, if there is one; the model does both. */
  method SetTitle(s: Server, t: ToplevelId, title: string)
    requires t in s.tops
    modifies s`tops
    ensures s.tops.Keys == old(s.tops.Keys)
    ensures forall u :: u in old(s.tops) && u != t ==> s.tops[u] == old(s.tops)[u]
    ensures s.tops[t].title == Some(title)
    ensures s.tops[t].foreign.Some? == old(s.tops[t].foreign.Some?)
    ensures s.tops[t].foreign.Some? ==> s.tops[t].foreign.value == old(s.tops[t].foreign.value).(title := Some(title))
    ensures s.tops[t].(title := old(s.tops[t].title), foreign := old(s.tops[t].foreign)) == old(s.tops[t])
  {
    var tl := s.tops[t].(title := Some(title));
    if tl.foreign.Some? {
      tl := tl.(foreign := Some(tl.foreign.value.(title := Some(title))));
    }
    s.tops := s.tops[t := tl];
  }

  /** xdg_toplevel_set_app_id. wlroots stores the new app id in the
      xdg_toplevel before it signals the event, and the handler copies it
      to the foreign handle, if there is one; the model does both. */
  method SetAppId(s: Server, t: ToplevelId, appId: string)
    requires t in s.tops
    modifies s`tops
    ensures s.tops.Keys == old(s.tops.Keys)
    ensures forall u :: u in old(s.tops) && u != t ==> s.tops[u] == old(s.tops)[u]
    ensures s.tops[t].appId == Some(appId)
    ensures s.tops[t].foreign.Some? == old(s.tops[t].foreign.Some?)
    ensures s.tops[t].foreign.Some? ==> s.tops[t].foreign.value == old(s.tops[t].foreign.value).(appId := Some(appId))
    ensures s.tops[t].(appId := old(s.tops[t].appId), foreign := old(s.tops[t].foreign)) == old(s.tops[t])
  {
    var tl := s.tops[t].(appId := Some(appId));
    if tl.foreign.Some? {
      tl := tl.(foreign := Some(tl.foreign.value.(appId := Some(appId))));
    }
    s.tops := s.tops[t := tl];
  }

  /** xdg_toplevel_request_maximize and xdg_toplevel_request_fullscreen: the
      request itself is not honoured; an initialized surface is sent a
      configure (of the unchanged pending state), an uninitialized one
      nothing. */
  method RequestMaximizeOrFullscreen(s: Server, t: ToplevelId)
    requires t in s.tops
    modifies s`tops
    ensures old(s.tops[t].initialized) ==> s.tops == old(s.tops)[t := old(s.tops[t]).(scheduled := old(s.tops[t].scheduled) + 1)]
    ensures !old(s.tops[t].initialized) ==> s.tops == old(s.tops)
  {
    if s.tops[t].initialized {
      s.tops := s.tops[t := s.tops[t].(scheduled := s.tops[t].scheduled + 1)];
    }
  }

  /** The window's link as toplevel_focus finds it is NULL when the window
      is not on the focus stack: toplevel_create's calloc leaves it zeroed
      and unmap's wl_list_remove clears it. toplevel_focus unlinks it
      whenever the window's surface does not already hold the keyboard
      focus. */
  predicate NullUnlink(toplevels: seq<ToplevelId>, tops: map<ToplevelId, Toplevel>,
                       keyboardFocus: Option<SurfaceId>, t: ToplevelId)
    requires t in tops
  {
    t !in toplevels && keyboardFocus != Some(tops[t].surface)
  }

  /** toplevel_foreign_request_activate as the source writes it: it calls
      toplevel_focus for any window with a foreign handle, mapped or not.
      For a window off the focus stack that is a wl_list_remove of a NULL
      link, reported as `nullUnlink`; what the process does after that is
      not modelled, and the model stops there with the state unchanged.
      Otherwise it is Focus: nothing changes when the window's surface
      already holds the keyboard focus, and the window is raised, activated
      and given the keyboard focus when it does not. */
  method ForeignRequestActivateAsWritten(s: Server, t: ToplevelId) returns (nullUnlink: bool)
    requires s.Core() && t in s.tops
    modifies s`toplevels, s`tops, s`keyboardFocus
    ensures nullUnlink <==> old(NullUnlink(s.toplevels, s.tops, s.keyboardFocus, t))
    ensures s.Core()
    ensures nullUnlink || old(s.keyboardFocus) == Some(old(s.tops[t].surface)) ==>
      s.toplevels == old(s.toplevels) && s.tops == old(s.tops) && s.keyboardFocus == old(s.keyboardFocus)
    ensures !nullUnlink && old(s.keyboardFocus) != Some(old(s.tops[t].surface)) ==>
      && s.toplevels == [t] + Without(old(s.toplevels), t)
      && s.tops == SwitchActivation(old(s.tops), PreviousHolder(old(s.toplevels), old(s.tops), old(s.keyboardFocus)), t)
      && s.keyboardFocus == (if s.hasKeyboard then Some(old(s.tops[t].surface)) else old(s.keyboardFocus))
  {
    nullUnlink := NullUnlink(s.toplevels, s.tops, s.keyboardFocus, t);
    if t in s.toplevels {
      SwitchActivationEffect(s.tops, PreviousHolder(s.toplevels, s.tops, s.keyboardFocus), t);
      Focus(s, Some(t));
    }
  }

  /** The crash is reachable: right after toplevel_create a window that is
      not the panel has a foreign handle the taskbar can activate, and it is
      not on the focus stack until it maps, so activating it while another
      surface (or none) holds the keyboard focus unlinks a NULL link. */
  lemma CreatedHandleReachesNullUnlink(toplevels: seq<ToplevelId>, tops: map<ToplevelId, Toplevel>,
                                       outputs: seq<OutputId>, outs: map<OutputId, Output>,
                                       panelClient: Option<ClientId>, t: ToplevelId, client: ClientId,
                                       surface: SurfaceId, keyboardFocus: Option<SurfaceId>)
    requires t !in tops && t !in toplevels && (|outputs| > 0 ==> outputs[|outputs| - 1] in outs)
    requires PanelRefsOk(outs, tops) && panelClient != Some(client) && keyboardFocus != Some(surface)
    ensures var r := CreateTops(tops, outs, outputs, panelClient, t, client, surface);
      t in r && r[t].foreign.Some? && NullUnlink(toplevels, r, keyboardFocus, t)
  {
    CreateEffect(tops, outputs, outs, panelClient, t, client, surface);
  }

  /** toplevel_foreign_request_activate, corrected: the taskbar's activate
      request focuses a mapped window exactly as Focus does, and is ignored
      for a window that is not on the focus stack. */
  method ForeignRequestActivate(s: Server, t: ToplevelId)
    requires s.Core() && t in s.tops
    modifies s`toplevels, s`tops, s`keyboardFocus
    ensures s.Core()
    ensures old(OutputRefsOk(s.tops, s.outs)) ==> OutputRefsOk(s.tops, s.outs)
    ensures t !in old(s.toplevels) || old(s.keyboardFocus) == Some(old(s.tops[t].surface)) ==>
      s.toplevels == old(s.toplevels) && s.tops == old(s.tops) && s.keyboardFocus == old(s.keyboardFocus)
    ensures t in old(s.toplevels) && old(s.keyboardFocus) != Some(old(s.tops[t].surface)) ==>
      && s.toplevels == [t] + Without(old(s.toplevels), t)
      && s.tops == SwitchActivation(old(s.tops), PreviousHolder(old(s.toplevels), old(s.tops), old(s.keyboardFocus)), t)
      && s.keyboardFocus == (if s.hasKeyboard then Some(old(s.tops[t].surface)) else old(s.keyboardFocus))
  {
    if t in s.toplevels {
      SwitchActivationEffect(s.tops, PreviousHolder(s.toplevels, s.tops, s.keyboardFocus), t);
      Focus(s, Some(t));
    }
  }

  /** A surface found under the cursor: the client owning it and the cursor
      position in surface-local coordinates. */
  datatype SceneSurface = SceneSurface(surface: SurfaceId, client: ClientId, local: Point)

  /** What wlr_scene_node_at finds at a layout position: nothing, a node
      that is not a buffer, or a buffer node with the surface it shows (None
      for a buffer that is not a surface) and the data pointers of its
      ancestor trees, nearest first. A window's scene tree carries the
      window as its data; other trees carry none. */
  datatype SceneHit =
    | NoNode
    | OtherNode
    | BufferNode(surface: Option<SceneSurface>, ancestors: seq<Option<ToplevelId>>)

  /** Every surface in the scene lies below some window's tree. */
  predicate Tagged(hit: SceneHit)
  {
    hit.BufferNode? && hit.surface.Some? ==> exists i :: 0 <= i < |hit.ancestors| && hit.ancestors[i].Some?
  }

  /** The window of the nearest ancestor tree that carries one. */
  function FirstTagged(ancestors: seq<Option<ToplevelId>>): (r: Option<ToplevelId>)
    ensures r.Some? ==> r in ancestors
  {
    if ancestors == [] then None
    else if ancestors[0].Some? then ancestors[0]
    else FirstTagged(ancestors[1..])
  }

  /** FirstTagged finds a window exactly when some ancestor carries one,
      and the one it finds has no nearer ancestor carrying a window. */
  lemma {:induction false} FirstTaggedNearest(ancestors: seq<Option<ToplevelId>>)
    ensures FirstTagged(ancestors).Some? <==> exists i :: 0 <= i < |ancestors| && ancestors[i].Some?
    ensures FirstTagged(ancestors).Some? ==>
      exists k :: 0 <= k < |ancestors| && ancestors[k] == FirstTagged(ancestors) &&
                  forall j :: 0 <= j < k ==> ancestors[j].None?
  {
    if ancestors != [] && ancestors[0].None? {
      var tail := ancestors[1..];
      FirstTaggedNearest(tail);
      if FirstTagged(tail).Some? {
        var k :| 0 <= k < |tail| && tail[k] == FirstTagged(tail) && forall j :: 0 <= j < k ==> tail[j].None?;
        assert ancestors[k + 1] == tail[k];
        assert forall j :: 1 <= j < k + 1 ==> ancestors[j] == tail[j - 1];
      } else {
        forall i | 0 <= i < |ancestors| ensures ancestors[i].None? {
          if i > 0 { assert ancestors[i] == tail[i - 1]; }
        }
      }
    } else if ancestors != [] {
      assert ancestors[0].Some?;
    }
  }

  /** The window toplevel_at reports for a scene hit: only a buffer node
      that shows a surface belongs to a window. */
  function HitWindow(hit: SceneHit): Option<ToplevelId>
  {
    if hit.BufferNode? && hit.surface.Some? then FirstTagged(hit.ancestors) else None
  }

  /** toplevel_at: for a surface buffer, the surface and the window of the
      nearest ancestor tree that carries one; nothing otherwise. */
  method ToplevelAt(hit: SceneHit) returns (t: Option<ToplevelId>, surface: Option<SceneSurface>)
    requires Tagged(hit)
    ensures surface == (if hit.BufferNode? then hit.surface else None)
    ensures t == HitWindow(hit)
    ensures t.Some? <==> surface.Some?
  {
    if !hit.BufferNode? || hit.surface.None? {
      return None, None;
    }
    surface := hit.surface;
    FirstTaggedNearest(hit.ancestors);
    var i := 0;
    while i < |hit.ancestors| && hit.ancestors[i].None?
      invariant 0 <= i <= |hit.ancestors|
      invariant FirstTagged(hit.ancestors[i..]) == FirstTagged(hit.ancestors)
      invariant forall j :: 0 <= j < i ==> hit.ancestors[j].None?
    {
      assert hit.ancestors[i..][1..] == hit.ancestors[i + 1..];
      i := i + 1;
    }
    t := hit.ancestors[i];
  }
}
