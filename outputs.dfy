/** The output registry of the compositor (src/wlmatchbox/output.c): the
    list of outputs, newest first, and the reassignment of windows when an
    output appears or goes away. */
module Outputs {
  import opened Common
  import opened Compositor
  import opened Toplevels

  /** The windows and the outputs together, as a walk over the focus stack
      leaves them. */
  datatype Placement = Placement(tops: map<ToplevelId, Toplevel>, outs: map<OutputId, Output>)

  /** The loop of output_create: walking the windows ts in order, each one
      without an output is assigned to output o. */
  function AssignUnassigned(ts: seq<ToplevelId>, tops: map<ToplevelId, Toplevel>, outs: map<OutputId, Output>,
                            panelClient: Option<ClientId>, o: OutputId): (r: Placement)
    requires forall i :: 0 <= i < |ts| ==> ts[i] in tops
    requires o in outs
    ensures r.tops.Keys == tops.Keys && r.outs.Keys == outs.Keys
    decreases |ts|
  {
    if ts == [] then Placement(tops, outs)
    else if tops[ts[0]].output.None? then
      AssignUnassigned(ts[1..], AssignTops(tops, outs, panelClient, ts[0], o),
                       AssignOuts(outs, tops, panelClient, ts[0], o), panelClient, o)
    else AssignUnassigned(ts[1..], tops, outs, panelClient, o)
  }

  /** The walk of output_create gives output o to exactly the listed
      windows that had no output, and touches no other window; the outputs
      other than o are left alone and o keeps its mode. */
  lemma {:induction false} AssignUnassignedEffect(ts: seq<ToplevelId>, tops: map<ToplevelId, Toplevel>,
                                                  outs: map<OutputId, Output>, panelClient: Option<ClientId>, o: OutputId)
    requires Distinct(ts) && (forall i :: 0 <= i < |ts| ==> ts[i] in tops) && o in outs
    ensures var r := AssignUnassigned(ts, tops, outs, panelClient, o);
      && (forall u :: u in tops ==>
            r.tops[u].output == if u in ts && tops[u].output.None? then Some(o) else tops[u].output)
      && (forall u :: u in tops && !(u in ts && tops[u].output.None?) ==> r.tops[u] == tops[u])
      && (forall p :: p in outs && p != o ==> r.outs[p] == outs[p])
      && r.outs[o].mode == outs[o].mode
  {
    if ts != [] {
      var u := ts[0];
      DistinctTail(ts);
      assert forall i :: 1 <= i < |ts| ==> ts[i] == ts[1..][i - 1];
      if tops[u].output.None? {
        AssignOutputEffect(tops, outs, panelClient, u, o);
        AssignUnassignedEffect(ts[1..], AssignTops(tops, outs, panelClient, u, o),
                               AssignOuts(outs, tops, panelClient, u, o), panelClient, o);
      } else {
        AssignUnassignedEffect(ts[1..], tops, outs, panelClient, o);
      }
    }
  }

  /** The walk of output_create keeps the structural invariant, and keeps
      output references live when they were. */
  lemma {:induction false} AssignUnassignedKeepsCore(toplevels: seq<ToplevelId>, outputs: seq<OutputId>,
                                                     ts: seq<ToplevelId>, tops: map<ToplevelId, Toplevel>,
                                                     outs: map<OutputId, Output>, panelClient: Option<ClientId>, o: OutputId)
    requires CoreOf(toplevels, tops, outputs, outs)
    requires (forall i :: 0 <= i < |ts| ==> ts[i] in tops) && o in outs
    ensures var r := AssignUnassigned(ts, tops, outs, panelClient, o);
      && CoreOf(toplevels, r.tops, outputs, r.outs)
      && (OutputRefsOk(tops, outs) ==> OutputRefsOk(r.tops, r.outs))
  {
    if ts != [] {
      var u := ts[0];
      if tops[u].output.None? {
        AssignKeepsCore(toplevels, tops, outputs, outs, panelClient, u, o);
        AssignUnassignedKeepsCore(toplevels, outputs, ts[1..], AssignTops(tops, outs, panelClient, u, o),
                                  AssignOuts(outs, tops, panelClient, u, o), panelClient, o);
      } else {
        AssignUnassignedKeepsCore(toplevels, outputs, ts[1..], tops, outs, panelClient, o);
      }
    }
  }

  /** output_create: the output is linked at the head of server->outputs
      with no panel, and the windows of the focus stack without an output
      are assigned to it in focus order (AssignUnassignedEffect says
      which windows change and how). */
  method Create(s: Server, o: OutputId, mode: Mode)
    requires s.Core() && o !in s.outs
    modifies s`outputs, s`outs, s`tops
    ensures s.outputs == [o] + old(s.outputs)
    ensures var r := AssignUnassigned(s.toplevels, old(s.tops), old(s.outs)[o := Output(mode, None)], s.panelClient, o);
      s.tops == r.tops && s.outs == r.outs
    ensures s.Core()
    ensures old(OutputRefsOk(s.tops, s.outs)) ==> OutputRefsOk(s.tops, s.outs)
  {
    assert o !in s.outputs;
    DistinctCons(o, s.outputs);
    s.outputs := [o] + s.outputs;
    s.outs := s.outs[o := Output(mode, None)];
    ghost var r := AssignUnassigned(s.toplevels, s.tops, s.outs, s.panelClient, o);
    var i := 0;
    while i < |s.toplevels|
      invariant 0 <= i <= |s.toplevels|
      invariant s.outputs == [o] + old(s.outputs)
      invariant s.Core() && o in s.outs
      invariant old(OutputRefsOk(s.tops, s.outs)) ==> OutputRefsOk(s.tops, s.outs)
      invariant AssignUnassigned(s.toplevels[i..], s.tops, s.outs, s.panelClient, o) == r
    {
      var u := s.toplevels[i];
      assert s.toplevels[i..][1..] == s.toplevels[i + 1..];
      if s.tops[u].output.None? {
        AssignOutput(s, u, o);
      }
      i := i + 1;
    }
    assert s.toplevels[i..] == [];
  }

  /** The loop of output_destroy_notify: walking the windows ts in order,
      each one whose output is o is reassigned with
      toplevel_assign_any_output. */
  function ReassignFrom(ts: seq<ToplevelId>, tops: map<ToplevelId, Toplevel>, outs: map<OutputId, Output>,
                        outputs: seq<OutputId>, panelClient: Option<ClientId>, o: OutputId): (r: Placement)
    requires forall i :: 0 <= i < |ts| ==> ts[i] in tops
    requires |outputs| > 0 ==> outputs[|outputs| - 1] in outs
    ensures r.tops.Keys == tops.Keys && r.outs.Keys == outs.Keys
    decreases |ts|
  {
    if ts == [] then Placement(tops, outs)
    else if tops[ts[0]].output == Some(o) then
      ReassignFrom(ts[1..], AssignAnyTops(tops, outs, outputs, panelClient, ts[0]),
                   AssignAnyOuts(tops, outs, outputs, panelClient, ts[0]), outputs, panelClient, o)
    else ReassignFrom(ts[1..], tops, outs, outputs, panelClient, o)
  }

  /** The walk of output_destroy_notify moves exactly the listed windows
      that were on output o to the oldest remaining output (or leaves them
      without one), touches no other window, and keeps every output's
      mode. */
  lemma {:induction false} ReassignFromEffect(ts: seq<ToplevelId>, tops: map<ToplevelId, Toplevel>,
                                              outs: map<OutputId, Output>, outputs: seq<OutputId>,
                                              panelClient: Option<ClientId>, o: OutputId)
    requires Distinct(ts) && (forall i :: 0 <= i < |ts| ==> ts[i] in tops)
    requires |outputs| > 0 ==> outputs[|outputs| - 1] in outs
    requires OldestOutput(outputs) != Some(o)
    ensures var r := ReassignFrom(ts, tops, outs, outputs, panelClient, o);
      && (forall u :: u in tops ==>
            r.tops[u].output == if u in ts && tops[u].output == Some(o) then OldestOutput(outputs) else tops[u].output)
      && (forall u :: u in tops && !(u in ts && tops[u].output == Some(o)) ==> r.tops[u] == tops[u])
      && (forall p :: p in outs ==> r.outs[p].mode == outs[p].mode)
  {
    if ts != [] {
      var u := ts[0];
      DistinctTail(ts);
      assert forall i :: 1 <= i < |ts| ==> ts[i] == ts[1..][i - 1];
      if tops[u].output == Some(o) {
        AssignAnyOutputEffect(tops, outs, outputs, panelClient, u);
        ReassignFromEffect(ts[1..], AssignAnyTops(tops, outs, outputs, panelClient, u),
                           AssignAnyOuts(tops, outs, outputs, panelClient, u), outputs, panelClient, o);
      } else {
        ReassignFromEffect(ts[1..], tops, outs, outputs, panelClient, o);
      }
    }
  }

  /** The walk of output_destroy_notify keeps the structural invariant. */
  lemma {:induction false} ReassignFromKeepsCore(toplevels: seq<ToplevelId>, outputs: seq<OutputId>,
                                                 ts: seq<ToplevelId>, tops: map<ToplevelId, Toplevel>,
                                                 outs: map<OutputId, Output>, panelClient: Option<ClientId>, o: OutputId)
    requires CoreOf(toplevels, tops, outputs, outs)
    requires forall i :: 0 <= i < |ts| ==> ts[i] in tops
    ensures CoreOf(toplevels, ReassignFrom(ts, tops, outs, outputs, panelClient, o).tops, outputs,
                   ReassignFrom(ts, tops, outs, outputs, panelClient, o).outs)
  {
    if ts != [] {
      var u := ts[0];
      if tops[u].output == Some(o) {
        UnassignKeepsCore(toplevels, tops, outputs, outs, panelClient, u);
        if |outputs| > 0 {
          AssignKeepsCore(toplevels, UnassignTops(tops, u), outputs, UnassignOuts(outs, tops, panelClient, u),
                          panelClient, u, outputs[|outputs| - 1]);
        }
        ReassignFromKeepsCore(toplevels, outputs, ts[1..], AssignAnyTops(tops, outs, outputs, panelClient, u),
                              AssignAnyOuts(tops, outs, outputs, panelClient, u), panelClient, o);
      } else {
        ReassignFromKeepsCore(toplevels, outputs, ts[1..], tops, outs, panelClient, o);
      }
    }
  }

  /** The registry after the output o is unlinked and freed. */
  method Unlink(s: Server, o: OutputId)
    requires s.Core() && o in s.outs
    modifies s`outputs, s`outs
    ensures s.outputs == Without(old(s.outputs), o) && o !in s.outputs
    ensures s.outs == old(s.outs) - {o}
    ensures s.Core()
    ensures OldestOutput(s.outputs) != Some(o)
  {
    WithoutDistinct(s.outputs, o);
    WithoutMembers(s.outputs, o, o);
    forall i | 0 <= i < |Without(s.outputs, o)| ensures Without(s.outputs, o)[i] in s.outs - {o} {
      WithoutMembers(s.outputs, o, Without(s.outputs, o)[i]);
    }
    forall p | p in s.outs - {o} ensures p in Without(s.outputs, o) {
      WithoutMembers(s.outputs, o, p);
    }
    s.outputs := Without(s.outputs, o);
    s.outs := s.outs - {o};
  }

  /** The loop of output_destroy_notify over the windows ts: each one still
      on o is reassigned with toplevel_assign_any_output. */
  method Reassign(s: Server, ts: seq<ToplevelId>, o: OutputId)
    requires s.Core() && o !in s.outs && forall k :: 0 <= k < |ts| ==> ts[k] in s.tops
    modifies s`outs, s`tops
    ensures s.Core()
    ensures var r := ReassignFrom(ts, old(s.tops), old(s.outs), s.outputs, s.panelClient, o);
      s.tops == r.tops && s.outs == r.outs
  {
    ghost var r := ReassignFrom(ts, s.tops, s.outs, s.outputs, s.panelClient, o);
    var i := 0;
    while i < |ts|
      invariant 0 <= i <= |ts|
      invariant s.Core() && s.outputs == old(s.outputs) && o !in s.outs
      invariant forall k :: 0 <= k < |ts| ==> ts[k] in s.tops
      invariant ReassignFrom(ts[i..], s.tops, s.outs, s.outputs, s.panelClient, o) == r
    {
      var u := ts[i];
      assert ts[i..][1..] == ts[i + 1..];
      if s.tops[u].output == Some(o) {
        AssignAnyOutput(s, u);
      }
      i := i + 1;
    }
    assert ts[i..] == [];
  }

  /** output_destroy_notify as the source writes it: the output is
      unlinked and freed, then the windows of the focus stack that were on
      it are reassigned. A window that is not mapped at that moment is not
      on the focus stack, so it keeps pointing at the freed output. */
  method DestroyNotifyAsWritten(s: Server, o: OutputId)
    requires s.Core() && o in s.outs
    modifies s`outputs, s`outs, s`tops
    ensures s.outputs == Without(old(s.outputs), o)
    ensures s.outs.Keys == old(s.outs).Keys - {o}
    ensures s.Core()
    ensures var r := ReassignFrom(s.toplevels, old(s.tops), old(s.outs) - {o}, s.outputs, s.panelClient, o);
      s.tops == r.tops && s.outs == r.outs
    ensures forall u :: u in old(s.tops) && u !in s.toplevels && old(s.tops)[u].output == Some(o) ==>
      !OutputOk(s.tops[u], s.outs)
  {
    Unlink(s, o);
    ReassignFromEffect(s.toplevels, s.tops, s.outs, s.outputs, s.panelClient, o);
    Reassign(s, s.toplevels, o);
  }

  /** Every window record, each once, in the order a walk over the
      corrected destroy handler's window list visits them. */
  method AllWindows(tops: map<ToplevelId, Toplevel>) returns (ts: seq<ToplevelId>)
    ensures Distinct(ts)
    ensures forall u :: u in ts <==> u in tops
  {
    ts := [];
    var pending := tops.Keys;
    while pending != {}
      invariant Distinct(ts) && pending <= tops.Keys
      invariant forall u :: u in ts <==> u in tops && u !in pending
      decreases pending
    {
      var u :| u in pending;
      DistinctCons(u, ts);
      ts := [u] + ts;
      pending := pending - {u};
    }
  }

  /** output_destroy_notify as evidently intended: the walk covers every
      window, mapped or not, in the order `order`, so every window whose
      output was o is moved to the oldest remaining output (or left without
      one when none remains) and no window is left pointing at the freed
      output. The moved windows are reassigned exactly as the as-written
      walk reassigns the mapped ones; every other window keeps its whole
      record, and every remaining output keeps its mode. */
  method DestroyNotify(s: Server, o: OutputId) returns (order: seq<ToplevelId>)
    requires s.Valid() && o in s.outs
    modifies s`outputs, s`outs, s`tops
    ensures Distinct(order) && forall u :: u in order <==> u in old(s.tops)
    ensures s.outputs == Without(old(s.outputs), o)
    ensures s.Valid()
    ensures s.outs.Keys == old(s.outs).Keys - {o}
    ensures s.tops.Keys == old(s.tops).Keys
    ensures var r := ReassignFrom(order, old(s.tops), old(s.outs) - {o}, s.outputs, s.panelClient, o);
      s.tops == r.tops && s.outs == r.outs
    ensures forall u :: u in s.tops ==>
      s.tops[u].output == if old(s.tops)[u].output == Some(o) then OldestOutput(s.outputs) else old(s.tops)[u].output
    ensures forall u :: u in old(s.tops) && old(s.tops)[u].output != Some(o) ==> s.tops[u] == old(s.tops)[u]
    ensures forall p :: p in s.outs ==> s.outs[p].mode == old(s.outs)[p].mode
  {
    Unlink(s, o);
    order := AllWindows(s.tops);
    ghost var tops1, outs1 := s.tops, s.outs;
    ReassignFromEffect(order, tops1, outs1, s.outputs, s.panelClient, o);
    Reassign(s, order, o);
    assert forall u :: u in tops1 ==> OutputOk(s.tops[u], s.outs) by {
      forall u | u in tops1 ensures OutputOk(s.tops[u], s.outs) {
        assert OutputOk(old(s.tops)[u], old(s.outs));
      }
    }
  }
}
