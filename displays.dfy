/** The display of the client library (src/libwlmatchapp/display.c): the
    registry listener that binds the globals the library needs, the
    connection roundtrips, the per-iteration drawing of the event loop,
    and the teardown of every list the display owns. The wl_display
    connection itself, and the libwayland calls that deliver registry
    events, enter the model as parameters. */
module Displays {
  import opened Common
  import opened WlmTypes
  import Seats
  import Windows
  import AppToplevels

  /** The highest protocol versions the library binds. */
  const WL_COMPOSITOR_VERSION: nat := 5
  const WL_SEAT_VERSION: nat := 5
  const WL_SHM_VERSION: nat := 1
  const XDG_WM_BASE_VERSION: nat := 4

  /** MIN(version, supported): the version a global is bound at. */
  function BindVersion(version: nat, supported: nat): (v: nat)
    ensures v <= version && v <= supported
    ensures v == version || v == supported
  {
    if version < supported then version else supported
  }

  /** registry_global: wl_compositor, wl_seat and xdg_wm_base are bound
      whenever announced, wl_seat creating a seat at the head of the seat
      list; wl_shm is bound only the first time, and then one more
      roundtrip is due to collect its formats; any other interface is not
      bound. `proxyId` is the object id the new wl_seat proxy receives.
      The result is the version bound at, if any. */
  method RegistryGlobal(d: Display, name: nat, interface: string, version: nat, proxyId: nat)
    returns (bound: Option<nat>)
    requires Distinct(d.seats)
    modifies d`hasCompositor, d`hasShm, d`hasWmBase, d`needsRoundtrip, d`seats
    ensures interface == "wl_compositor" ==> bound == Some(BindVersion(version, WL_COMPOSITOR_VERSION))
    ensures interface == "wl_seat" ==>
      && bound == Some(BindVersion(version, WL_SEAT_VERSION))
      && |d.seats| == |old(d.seats)| + 1 && d.seats[1..] == old(d.seats) && fresh(d.seats[0])
      && d.seats[0].proxyId == proxyId && d.seats[0].globalName == name
      && !d.seats[0].hasPointer && d.seats[0].pointerWindow.None?
    ensures interface == "wl_shm" ==>
      bound == (if old(d.hasShm) then None else Some(BindVersion(version, WL_SHM_VERSION)))
    ensures interface == "xdg_wm_base" ==> bound == Some(BindVersion(version, XDG_WM_BASE_VERSION))
    ensures interface !in ["wl_compositor", "wl_seat", "wl_shm", "xdg_wm_base"] ==> bound.None?
    ensures d.hasCompositor == (old(d.hasCompositor) || interface == "wl_compositor")
    ensures d.hasShm == (old(d.hasShm) || interface == "wl_shm")
    ensures d.hasWmBase == (old(d.hasWmBase) || interface == "xdg_wm_base")
    ensures d.needsRoundtrip == (old(d.needsRoundtrip) || (interface == "wl_shm" && !old(d.hasShm)))
    ensures interface != "wl_seat" ==> d.seats == old(d.seats)
    ensures Distinct(d.seats)
  {
    if interface == "wl_compositor" {
      d.hasCompositor := true;
      bound := Some(BindVersion(version, WL_COMPOSITOR_VERSION));
    } else if interface == "wl_seat" {
      var seat := Seats.Create(d, proxyId, name);
      bound := Some(BindVersion(version, WL_SEAT_VERSION));
    } else if interface == "wl_shm" {
      if !d.hasShm {
        d.hasShm := true;
        d.needsRoundtrip := true;
        bound := Some(BindVersion(version, WL_SHM_VERSION));
      } else {
        bound := None;
      }
    } else if interface == "xdg_wm_base" {
      d.hasWmBase := true;
      bound := Some(BindVersion(version, XDG_WM_BASE_VERSION));
    } else {
      bound := None;
    }
  }

  /** shm_format: each advertised format is linked at the head of the
      display's format list. */
  method ShmFormat(d: Display, format: nat)
    modifies d`shmFormats
    ensures d.shmFormats == [format] + old(d.shmFormats)
  {
    d.shmFormats := [format] + d.shmFormats;
  }

  /** Which identifier of a seat registry_global_remove compares with the
      name of the removed global: as written, the object id of the seat's
      wl_seat proxy; as intended, the registry name it was bound from. */
  datatype SeatKey = ByProxyId | ByGlobalName

  function KeyOf(seat: Seat, key: SeatKey): nat {
    match key
    case ByProxyId => seat.proxyId
    case ByGlobalName => seat.globalName
  }

  /** The seats, in list order, that survive the removal of global `name`
      when seats are compared by `key`. */
  function SeatsLeft(seats: seq<Seat>, name: nat, key: SeatKey): (r: seq<Seat>)
    ensures |r| <= |seats|
    decreases |seats|
  {
    if seats == [] then []
    else
      var n := |seats| - 1;
      SeatsLeft(seats[..n], name, key) + (if KeyOf(seats[n], key) != name then [seats[n]] else [])
  }

  /** A seat survives exactly when it was in the list and its key differs
      from the removed name. */
  lemma {:induction false} SeatsLeftMembers(seats: seq<Seat>, name: nat, key: SeatKey, s: Seat)
    ensures s in SeatsLeft(seats, name, key) <==> s in seats && KeyOf(s, key) != name
    decreases |seats|
  {
    if seats != [] {
      var n := |seats| - 1;
      assert seats == seats[..n] + [seats[n]];
      SeatsLeftMembers(seats[..n], name, key, s);
    }
  }

  /** SeatsLeft of a prefix grows by the next seat exactly when it stays. */
  lemma SeatsLeftSnoc(seats: seq<Seat>, name: nat, key: SeatKey, i: nat)
    requires i < |seats|
    ensures SeatsLeft(seats[..i + 1], name, key) ==
      SeatsLeft(seats[..i], name, key) + (if KeyOf(seats[i], key) != name then [seats[i]] else [])
  {
    assert seats[..i + 1][..i] == seats[..i];
  }

  /** One step of the removal loop: with the first i seats examined,
      destroying seat i when its key is the removed name, and keeping it
      otherwise, gives the first i + 1 seats examined. */
  lemma RemoveSeatStep(seats: seq<Seat>, name: nat, key: SeatKey, i: nat)
    requires Distinct(seats) && i < |seats|
    ensures var s := seats[i]; var cur := SeatsLeft(seats[..i], name, key) + seats[i..];
      if KeyOf(s, key) == name then Without(cur, s) == SeatsLeft(seats[..i + 1], name, key) + seats[i + 1..]
      else cur == SeatsLeft(seats[..i + 1], name, key) + seats[i + 1..]
  {
    var s := seats[i];
    var k := SeatsLeft(seats[..i], name, key);
    SeatsLeftSnoc(seats, name, key, i);
    assert seats[i..] == [s] + seats[i + 1..];
    if KeyOf(s, key) == name {
      assert s !in seats[..i] && s !in seats[i + 1..];
      SeatsLeftMembers(seats[..i], name, key, s);
      WithoutMiddle(k, s, seats[i + 1..]);
      assert k + seats[i..] == k + [s] + seats[i + 1..];
    }
  }

  /** The removal loop of registry_global_remove: every seat whose key is
      the removed name is destroyed, the others stay in order. */
  method RemoveSeats(d: Display, name: nat, key: SeatKey)
    requires Distinct(d.seats)
    modifies d`seats
    ensures d.seats == SeatsLeft(old(d.seats), name, key)
    ensures Distinct(d.seats)
  {
    var ss := d.seats;
    var i := 0;
    while i < |ss|
      invariant 0 <= i <= |ss|
      invariant d.seats == SeatsLeft(ss[..i], name, key) + ss[i..]
      invariant Distinct(d.seats)
    {
      var s := ss[i];
      RemoveSeatStep(ss, name, key, i);
      ghost var next := SeatsLeft(ss[..i + 1], name, key) + ss[i + 1..];
      if KeyOf(s, key) == name {
        Seats.Destroy(d, s);
      }
      assert d.seats == next;
      i := i + 1;
    }
    assert ss[..i] == ss;
  }

  /** registry_global_remove as written: a seat is destroyed when the
      object id of its wl_seat proxy equals the removed global's name. */
  method RegistryGlobalRemoveAsWritten(d: Display, name: nat)
    requires Distinct(d.seats)
    modifies d`seats
    ensures d.seats == SeatsLeft(old(d.seats), name, ByProxyId)
    ensures Distinct(d.seats)
  {
    RemoveSeats(d, name, ByProxyId);
  }

  /** As written, the seat bound from a removed global survives whenever
      its proxy's object id differs from the global's name (the two are
      numbered independently, the first by the client and the second by
      the compositor). */
  lemma RemoveAsWrittenKeepsRemovedSeat(seats: seq<Seat>, name: nat, s: Seat)
    requires s in seats && s.globalName == name && s.proxyId != name
    ensures s in SeatsLeft(seats, name, ByProxyId)
    ensures s !in SeatsLeft(seats, name, ByGlobalName)
  {
    SeatsLeftMembers(seats, name, ByProxyId, s);
    SeatsLeftMembers(seats, name, ByGlobalName, s);
  }

  /** As written, a seat whose global is still present is destroyed when
      its proxy's object id happens to equal the removed name. */
  lemma RemoveAsWrittenDropsLiveSeat(seats: seq<Seat>, name: nat, s: Seat)
    requires s in seats && s.globalName != name && s.proxyId == name
    ensures s !in SeatsLeft(seats, name, ByProxyId)
    ensures s in SeatsLeft(seats, name, ByGlobalName)
  {
    SeatsLeftMembers(seats, name, ByProxyId, s);
    SeatsLeftMembers(seats, name, ByGlobalName, s);
  }

  /** registry_global_remove as evidently intended: exactly the seats bound
      from the removed global are destroyed, and the others stay in
      order. */
  method RegistryGlobalRemove(d: Display, name: nat)
    requires Distinct(d.seats)
    modifies d`seats
    ensures d.seats == SeatsLeft(old(d.seats), name, ByGlobalName)
    ensures forall s :: s in d.seats <==> s in old(d.seats) && s.globalName != name
    ensures Distinct(d.seats)
  {
    ghost var before := d.seats;
    RemoveSeats(d, name, ByGlobalName);
    forall s ensures s in d.seats <==> s in before && s.globalName != name {
      SeatsLeftMembers(before, name, ByGlobalName, s);
    }
  }

  /** The registry and wl_shm events a roundtrip delivers to the display's
      listeners. */
  datatype RegistryEvent =
    | Global(name: nat, interface: string, version: nat, proxyId: nat)
    | GlobalRemove(name: nat)
    | Format(format: nat)

  /** What identifies a seat of the list: its proxy's object id and the
      registry name it was bound from. */
  datatype SeatIds = SeatIds(proxyId: nat, globalName: nat)

  function IdsOf(seats: seq<Seat>): (r: seq<SeatIds>)
    ensures |r| == |seats|
  {
    seq(|seats|, k requires 0 <= k < |seats| => SeatIds(seats[k].proxyId, seats[k].globalName))
  }

  /** The part of the display the registry listeners write: which globals
      are bound, whether a roundtrip is due, the formats and the seats. */
  datatype RegistryState = RegistryState(hasCompositor: bool, hasShm: bool, hasWmBase: bool, needsRoundtrip: bool,
                                         shmFormats: seq<nat>, seats: seq<SeatIds>)

  function StateOf(d: Display): RegistryState
    reads d
  {
    RegistryState(d.hasCompositor, d.hasShm, d.hasWmBase, d.needsRoundtrip, d.shmFormats, IdsOf(d.seats))
  }

  /** The seats left after the global `name` goes, as the corrected
      registry_global_remove leaves them. */
  function IdsLeft(ids: seq<SeatIds>, name: nat): seq<SeatIds>
    decreases |ids|
  {
    if ids == [] then []
    else
      var n := |ids| - 1;
      IdsLeft(ids[..n], name) + (if ids[n].globalName != name then [ids[n]] else [])
  }

  /** The effect of one event on the registry state, independently of the
      listeners: registry_global binds wl_compositor and xdg_wm_base, adds
      a seat for wl_seat, and binds wl_shm the first time only, making
      another roundtrip due; registry_global_remove drops the seats bound
      from the removed global; shm_format links the format at the head. */
  function Apply(r: RegistryState, e: RegistryEvent): RegistryState
  {
    match e
    case Global(name, interface, version, proxyId) =>
      if interface == "wl_compositor" then r.(hasCompositor := true)
      else if interface == "wl_seat" then r.(seats := [SeatIds(proxyId, name)] + r.seats)
      else if interface == "wl_shm" then (if r.hasShm then r else r.(hasShm := true, needsRoundtrip := true))
      else if interface == "xdg_wm_base" then r.(hasWmBase := true)
      else r
    case GlobalRemove(name) => r.(seats := IdsLeft(r.seats, name))
    case Format(format) => r.(shmFormats := [format] + r.shmFormats)
  }

  /** The events handled one after the other, in order. */
  function ApplyAll(r: RegistryState, events: seq<RegistryEvent>): RegistryState
    decreases |events|
  {
    if events == [] then r
    else Apply(ApplyAll(r, events[..|events| - 1]), events[|events| - 1])
  }

  /** The seat ids of the seats SeatsLeft keeps are the ids IdsLeft
      keeps. */
  lemma {:induction false} IdsOfSeatsLeft(seats: seq<Seat>, name: nat)
    ensures IdsOf(SeatsLeft(seats, name, ByGlobalName)) == IdsLeft(IdsOf(seats), name)
    decreases |seats|
  {
    if seats != [] {
      var n := |seats| - 1;
      assert IdsOf(seats)[..n] == IdsOf(seats[..n]);
      IdsOfSeatsLeft(seats[..n], name);
      var tail := if seats[n].globalName != name then [seats[n]] else [];
      var left := SeatsLeft(seats[..n], name, ByGlobalName);
      assert IdsOf(left + tail) == IdsOf(left) + IdsOf(tail);
    }
  }

  /** One event delivered to the display's listeners; a removal goes
      through the corrected registry_global_remove. */
  method HandleEvent(d: Display, e: RegistryEvent)
    requires Distinct(d.seats)
    modifies d`hasCompositor, d`hasShm, d`hasWmBase, d`needsRoundtrip, d`seats, d`shmFormats
    ensures StateOf(d) == Apply(old(StateOf(d)), e)
    ensures Distinct(d.seats)
  {
    match e {
    case Global(name, interface, version, proxyId) =>
      ghost var seats0 := d.seats;
      var bound := RegistryGlobal(d, name, interface, version, proxyId);
      if interface == "wl_seat" {
        assert d.seats == [d.seats[0]] + seats0;
        assert IdsOf(d.seats) == [SeatIds(proxyId, name)] + IdsOf(seats0);
      }
    case GlobalRemove(name) =>
      IdsOfSeatsLeft(d.seats, name);
      RegistryGlobalRemove(d, name);
    case Format(format) =>
      ShmFormat(d, format);
    }
  }

  /** One wl_display_roundtrip: the delivered events are handled in order,
      so the registry state ends as ApplyAll gives it. Binding wl_shm for
      the first time is the only thing that makes another roundtrip due. */
  method Roundtrip(d: Display, events: seq<RegistryEvent>)
    requires Distinct(d.seats)
    modifies d`hasCompositor, d`hasShm, d`hasWmBase, d`needsRoundtrip, d`seats, d`shmFormats
    ensures StateOf(d) == ApplyAll(old(StateOf(d)), events)
    ensures old(d.hasShm) ==> d.hasShm
    ensures d.needsRoundtrip == (old(d.needsRoundtrip) || (!old(d.hasShm) && d.hasShm))
    ensures Distinct(d.seats)
  {
    var i := 0;
    while i < |events|
      invariant 0 <= i <= |events|
      invariant StateOf(d) == ApplyAll(old(StateOf(d)), events[..i])
      invariant old(d.hasShm) ==> d.hasShm
      invariant d.needsRoundtrip == (old(d.needsRoundtrip) || (!old(d.hasShm) && d.hasShm))
      invariant Distinct(d.seats)
    {
      assert events[..i + 1][..i] == events[..i];
      HandleEvent(d, events[i]);
      i := i + 1;
    }
    assert events[..i] == events;
  }

  /** The events of roundtrip k, none when the connection delivers no
      more. */
  function RoundEvents(rounds: seq<seq<RegistryEvent>>, k: nat): seq<RegistryEvent>
  {
    if k < |rounds| then rounds[k] else []
  }

  /** The registry state after the first n roundtrips of
      wlm_display_connect, each one clearing the due flag before it runs. */
  function AfterRounds(r: RegistryState, rounds: seq<seq<RegistryEvent>>, n: nat): RegistryState
  {
    if n == 0 then r.(needsRoundtrip := true)
    else ApplyAll(AfterRounds(r, rounds, n - 1).(needsRoundtrip := false), RoundEvents(rounds, n - 1))
  }

  /** wlm_display_connect: without a connection nothing but the connection
      flag changes; otherwise roundtrips repeat while one is due, so the
      registry state is AfterRounds of their number, a roundtrip was due
      after every earlier one, and none is due afterwards. The first is
      always made and a second only when the first bound wl_shm, so at most
      two are made. `rounds[k]` are the events of roundtrip k. */
  method Connect(d: Display, connects: bool, rounds: seq<seq<RegistryEvent>>)
    returns (ok: bool, roundtrips: nat)
    requires Distinct(d.seats)
    modifies d`connected, d`hasCompositor, d`hasShm, d`hasWmBase, d`needsRoundtrip, d`seats, d`shmFormats
    ensures ok == connects
    ensures !ok ==> roundtrips == 0 && !d.connected && StateOf(d) == old(StateOf(d)) && d.seats == old(d.seats)
    ensures ok ==> d.connected && !d.needsRoundtrip && 1 <= roundtrips <= 2
    ensures ok ==> StateOf(d) == AfterRounds(old(StateOf(d)), rounds, roundtrips)
    ensures ok ==> forall k :: 0 <= k < roundtrips ==> AfterRounds(old(StateOf(d)), rounds, k).needsRoundtrip
    ensures roundtrips == 2 ==> !old(d.hasShm) && d.hasShm
    ensures Distinct(d.seats)
  {
    if !connects {
      d.connected := false;
      return false, 0;
    }
    ghost var r0 := StateOf(d);
    d.connected := true;
    d.needsRoundtrip := true;
    roundtrips := 0;
    while d.needsRoundtrip
      invariant d.connected && Distinct(d.seats)
      invariant old(d.hasShm) ==> d.hasShm
      invariant roundtrips == 0 ==> d.needsRoundtrip
      invariant roundtrips + (if d.needsRoundtrip then 1 else 0) <= 1 + (if d.hasShm && !old(d.hasShm) then 1 else 0)
      invariant StateOf(d) == AfterRounds(r0, rounds, roundtrips)
      invariant forall k :: 0 <= k < roundtrips ==> AfterRounds(r0, rounds, k).needsRoundtrip
      decreases (if d.hasShm then 0 else 2) + (if d.needsRoundtrip then 1 else 0)
    {
      d.needsRoundtrip := false;
      Roundtrip(d, RoundEvents(rounds, roundtrips));
      roundtrips := roundtrips + 1;
    }
    ok := true;
  }

  /** Every window of the list is linked once and has a duplicate-free
      buffer pool, and no buffer is in two windows' pools (each buffer is
      linked into the list of the window that created it). */
  predicate WindowsValid(d: Display)
    reads d, d.windows
  {
    && Distinct(d.windows) && (forall w :: w in d.windows ==> Distinct(w.buffers))
    && PoolsDisjoint(d.windows)
  }

  /** No buffer is in the pools of two windows of `ws`. */
  predicate PoolsDisjoint(ws: seq<Window>)
    reads ws
  {
    forall i, j :: 0 <= i < |ws| && 0 <= j < |ws| && i != j ==> Apart(ws[i].buffers, ws[j].buffers)
  }

  predicate Apart(xs: seq<Buffer>, ys: seq<Buffer>) {
    forall b :: b in xs ==> b !in ys
  }

  /** The buffers of every window of `ws`. */
  ghost function Pool(ws: seq<Window>): set<Buffer>
    reads ws
  {
    set w, b | w in ws && b in w.buffers :: b
  }

  /** The part of a window one pass of the dispatch loop looks at and
      may change. */
  datatype Snapshot = Snapshot(
    drawDue: bool, drawable: bool, buffers: seq<Buffer>, busy: set<Buffer>,
    frame: bool, attached: Option<Buffer>)

  /** The fields of a window a pass of the dispatch loop reads. */
  function FieldsOf(w: Window): (bool, bool, seq<Buffer>, bool, Option<Buffer>, bool, nat, nat)
    reads w
  {
    (w.needsDraw, Windows.CanDraw(w), w.buffers, w.frame, w.attached, w.needsCommit, w.width, w.height)
  }

  function SnapshotOf(w: Window): Snapshot
    reads w, w.buffers
  {
    Snapshot(w.needsDraw, Windows.CanDraw(w), w.buffers, Windows.Busy(w.buffers), w.frame, w.attached)
  }

  /** The snapshots of every window of `ws`, in order. */
  ghost function SnapshotsOf(ws: seq<Window>): (r: seq<Snapshot>)
    reads ws, Pool(ws)
    ensures |r| == |ws| && forall k :: 0 <= k < |ws| ==> r[k] == SnapshotOf(ws[k])
    decreases |ws|
  {
    if ws == [] then []
    else
      var n := |ws| - 1;
      assert forall w, b :: w in ws[..n] && b in w.buffers ==> w in ws && b in Pool(ws);
      assert forall b :: b in ws[n].buffers ==> b in Pool(ws);
      SnapshotsOf(ws[..n]) + [SnapshotOf(ws[n])]
  }

  /** What one pass of the dispatch loop leaves a window in, given the
      window as it was before: nothing to commit, and a redraw still due
      exactly when it was due and could not be done; a done redraw leaves
      the window as Windows.Redrawn says, and otherwise the pool, the busy
      flags, the frame callback and the attached buffer are as they were. */
  predicate Refreshed(w: Window, before: Snapshot)
    reads w, w.buffers
  {
    && !w.needsCommit && Distinct(w.buffers)
    && (w.needsDraw <==> before.drawDue && !before.drawable)
    && (before.drawDue && before.drawable ==> Windows.Redrawn(w, before.buffers, before.busy))
    && (!(before.drawDue && before.drawable) ==>
        && w.buffers == before.buffers && (forall b :: b in w.buffers ==> (b.busy <==> b in before.busy))
        && w.frame == before.frame && w.attached == before.attached)
  }

  /** One pass of the loop of wlm_display_dispatch: draw the window when a
      redraw is due, then commit it when a commit is due. */
  method Refresh(w: Window)
    requires Distinct(w.buffers)
    modifies w`needsDraw, w`buffers, w`attached, w`frame, w`needsCommit, w.buffers`busy
    ensures Refreshed(w, old(SnapshotOf(w)))
    ensures Windows.CanDraw(w) <==> old(Windows.CanDraw(w)) && !w.frame
    ensures forall b :: b in w.buffers ==> b in old(w.buffers) || fresh(b)
  {
    forall b | b in w.buffers
      ensures b in Windows.Busy(w.buffers) <==> b.busy
    {
      Windows.BusyMembers(w.buffers, b);
    }
    if w.needsDraw {
      Windows.Draw(w);
    }
    if w.needsCommit {
      Windows.Commit(w);
    }
  }

  /** One turn of the loop of wlm_display_dispatch, on the i-th window of
      `ws` as `snaps` recorded the windows: that window is refreshed, and
      every other window keeps its snapshot and stays refreshed. */
  method RefreshAt(ws: seq<Window>, i: nat, w: Window, ghost snaps: seq<Snapshot>)
    requires i < |ws| == |snaps| && ws[i] == w && Distinct(ws) && PoolsDisjoint(ws)
    requires forall k :: 0 <= k < |ws| ==> Distinct(ws[k].buffers)
    requires SnapshotOf(w) == snaps[i]
    modifies w`needsDraw, w`buffers, w`attached, w`frame, w`needsCommit, w.buffers`busy
    ensures PoolsDisjoint(ws) && forall k :: 0 <= k < |ws| ==> Distinct(ws[k].buffers)
    ensures Refreshed(w, snaps[i])
    ensures forall k :: 0 <= k < |ws| && k != i ==> SnapshotOf(ws[k]) == old(SnapshotOf(ws[k]))
    ensures forall k :: 0 <= k < |ws| && k != i ==>
      old(Refreshed(ws[k], snaps[k])) ==> Refreshed(ws[k], snaps[k])
  {
    RefreshOne(ws, i, w, snaps);
    ghost var j := 0;
    while j < |ws|
      invariant 0 <= j <= |ws|
      invariant forall k :: 0 <= k < j && k != i ==> Windows.Busy(ws[k].buffers) == old(Windows.Busy(ws[k].buffers))
    {
      if j != i {
        Windows.BusyFramed(old(ws[j].buffers));
      }
      j := j + 1;
    }
  }

  /** Refreshes the i-th window of `ws`; the fields and the buffers' busy
      flags of every other window stay as they were. */
  method RefreshOne(ws: seq<Window>, i: nat, w: Window, ghost snaps: seq<Snapshot>)
    requires i < |ws| == |snaps| && ws[i] == w && Distinct(ws) && PoolsDisjoint(ws)
    requires forall k :: 0 <= k < |ws| ==> Distinct(ws[k].buffers)
    requires SnapshotOf(w) == snaps[i]
    modifies w`needsDraw, w`buffers, w`attached, w`frame, w`needsCommit, w.buffers`busy
    ensures PoolsDisjoint(ws) && forall k :: 0 <= k < |ws| ==> Distinct(ws[k].buffers)
    ensures Refreshed(w, snaps[i])
    ensures forall k :: 0 <= k < |ws| && k != i ==>
      && FieldsOf(ws[k]) == old(FieldsOf(ws[k]))
      && (forall b :: b in ws[k].buffers ==> b.busy == old(b.busy))
      && (old(Refreshed(ws[k], snaps[k])) ==> Refreshed(ws[k], snaps[k]))
  {
    Refresh(w);
    forall k | 0 <= k < |ws| && k != i
      ensures FieldsOf(ws[k]) == old(FieldsOf(ws[k])) && forall b :: b in ws[k].buffers ==> b.busy == old(b.busy)
      ensures old(Refreshed(ws[k], snaps[k])) ==> Refreshed(ws[k], snaps[k])
      ensures Apart(ws[k].buffers, w.buffers) && Apart(w.buffers, ws[k].buffers)
    {
      assert ws[k] != w && Apart(ws[k].buffers, old(w.buffers));
    }
  }

  /** The drawing part of wlm_display_dispatch: every window of the list
      is refreshed once. `dispatched` is the result of wl_display_dispatch,
      which is returned. */
  method Dispatch(d: Display, dispatched: int) returns (r: int)
    requires WindowsValid(d)
    modifies d.windows`needsDraw, d.windows`buffers, d.windows`attached, d.windows`frame,
      d.windows`needsCommit, Pool(d.windows)`busy
    ensures r == dispatched && WindowsValid(d)
    ensures forall w :: w in old(d.windows) ==> Refreshed(w, old(SnapshotOf(w)))
  {
    var ws := d.windows;
    ghost var snaps := SnapshotsOf(ws);
    assert forall k :: 0 <= k < |ws| ==> snaps[k] == old(SnapshotOf(ws[k]));
    var i := 0;
    while i < |ws|
      invariant 0 <= i <= |ws| && d.windows == ws
      invariant Distinct(ws) && PoolsDisjoint(ws) && forall k :: 0 <= k < |ws| ==> Distinct(ws[k].buffers)
      invariant Progress(ws, snaps, i)
    {
      assert ws[i] in old(d.windows) && ws[i].buffers == snaps[i].buffers;
      assert forall b :: b in ws[i].buffers ==> b in old(Pool(d.windows));
      RefreshNext(ws, i, ws[i], snaps);
      i := i + 1;
    }
    r := dispatched;
  }

  /** The first i windows of `ws` are refreshed against their snapshots in
      `snaps`, and the rest still match theirs. */
  ghost predicate Progress(ws: seq<Window>, snaps: seq<Snapshot>, i: nat)
    requires i <= |ws| == |snaps|
    reads ws, Pool(ws)
  {
    assert forall k, b :: 0 <= k < |ws| && b in ws[k].buffers ==> b in Pool(ws);
    && (forall k :: 0 <= k < i ==> Refreshed(ws[k], snaps[k]))
    && (forall k :: i <= k < |ws| ==> SnapshotOf(ws[k]) == snaps[k])
  }

  /** A turn of the loop of wlm_display_dispatch in terms of Progress: with
      the first i windows refreshed, refreshing the i-th gives the first
      i + 1 refreshed. */
  method RefreshNext(ws: seq<Window>, i: nat, w: Window, ghost snaps: seq<Snapshot>)
    requires i < |ws| == |snaps| && ws[i] == w && Distinct(ws) && PoolsDisjoint(ws)
    requires forall k :: 0 <= k < |ws| ==> Distinct(ws[k].buffers)
    requires Progress(ws, snaps, i)
    modifies w`needsDraw, w`buffers, w`attached, w`frame, w`needsCommit, w.buffers`busy
    ensures PoolsDisjoint(ws) && forall k :: 0 <= k < |ws| ==> Distinct(ws[k].buffers)
    ensures Progress(ws, snaps, i + 1)
  {
    RefreshAt(ws, i, w, snaps);
  }

  /** cursor_theme_destroy: every cached cursor is freed, then the theme is
      unlinked from the display's list. */
  method DestroyTheme(d: Display, theme: CursorTheme)
    requires Distinct(d.themes)
    modifies d`themes, theme`cursors
    ensures theme.cursors == []
    ensures d.themes == Without(old(d.themes), theme) && theme !in d.themes && Distinct(d.themes)
  {
    while theme.cursors != []
      invariant d.themes == old(d.themes)
      decreases |theme.cursors|
    {
      theme.cursors := theme.cursors[1..];
    }
    WithoutMembers(d.themes, theme, theme);
    WithoutDistinct(d.themes, theme);
    d.themes := Without(d.themes, theme);
  }

  /** The first loop of wlm_display_destroy: every cursor theme is
      destroyed, head first. */
  method DestroyThemes(d: Display)
    requires Distinct(d.themes)
    modifies d`themes, d.themes`cursors
    ensures d.themes == []
    ensures forall t :: t in old(d.themes) ==> t.cursors == []
  {
    ghost var ts := d.themes;
    while d.themes != []
      invariant Distinct(d.themes)
      invariant forall t :: t in d.themes ==> t in ts
      invariant forall t :: t in ts ==> t in d.themes || t.cursors == []
      decreases |d.themes|
    {
      var t := d.themes[0];
      ghost var before := d.themes;
      WithoutAt(d.themes, 0);
      DestroyTheme(d, t);
      forall x | x in d.themes ensures x in before {
        WithoutMembers(before, t, x);
      }
      forall x | x in ts && x != t ensures x in d.themes || x.cursors == [] {
        WithoutMembers(before, t, x);
      }
    }
  }

  /** The second loop of wlm_display_destroy: every seat is destroyed. */
  method DestroySeats(d: Display)
    requires Distinct(d.seats)
    modifies d`seats
    ensures d.seats == []
  {
    while d.seats != []
      invariant Distinct(d.seats)
      decreases |d.seats|
    {
      WithoutAt(d.seats, 0);
      Seats.Destroy(d, d.seats[0]);
    }
  }

  /** The third loop of wlm_display_destroy: every shm format record is
      unlinked and freed, head first. */
  method DestroyShmFormats(d: Display)
    modifies d`shmFormats
    ensures d.shmFormats == []
  {
    while d.shmFormats != []
      decreases |d.shmFormats|
    {
      d.shmFormats := d.shmFormats[1..];
    }
  }

  /** The fourth loop of wlm_display_destroy: every toplevel is destroyed,
      which unlinks its base window and frees the window's buffers; the
      windows the application initialised itself stay linked. */
  method DestroyToplevels(d: Display)
    requires Distinct(d.windows) && Distinct(d.toplevels)
    modifies d`windows, d`toplevels, set t | t in d.toplevels :: t.base
    ensures d.toplevels == []
    ensures forall w :: w in d.windows ==> w in old(d.windows)
    ensures forall t :: t in old(d.toplevels) ==> t.base !in d.windows && t.base.buffers == []
    ensures Distinct(d.windows)
  {
    ghost var ts := d.toplevels;
    while d.toplevels != []
      invariant Distinct(d.windows) && Distinct(d.toplevels)
      invariant forall t :: t in d.toplevels ==> t in ts
      invariant forall w :: w in d.windows ==> w in old(d.windows)
      invariant forall t :: t in ts ==> t in d.toplevels || (t.base !in d.windows && t.base.buffers == [])
      decreases |d.toplevels|
    {
      var t := d.toplevels[0];
      ghost var tops := d.toplevels;
      ghost var wins := d.windows;
      WithoutAt(d.toplevels, 0);
      AppToplevels.Destroy(d, t);
      forall x | x in d.toplevels ensures x in tops {
        WithoutMembers(tops, t, x);
      }
      forall w | w in d.windows ensures w in wins {
        WithoutMembers(wins, t.base, w);
      }
      forall x | x in ts && x != t ensures x in d.toplevels || (x.base !in d.windows && x.base.buffers == []) {
        WithoutMembers(tops, t, x);
        WithoutMembers(wins, t.base, x.base);
      }
    }
  }

  /** wlm_display_destroy: the cursor themes, seats, shm formats and
      toplevels are destroyed in that order, then the bound globals and the
      connection are released. */
  method Destroy(d: Display)
    requires Distinct(d.themes) && Distinct(d.seats) && Distinct(d.windows) && Distinct(d.toplevels)
    modifies d, d.themes, set t | t in d.toplevels :: t.base
    ensures d.themes == [] && d.seats == [] && d.shmFormats == [] && d.toplevels == []
    ensures forall t :: t in old(d.themes) ==> t.cursors == []
    ensures forall t :: t in old(d.toplevels) ==> t.base !in d.windows && t.base.buffers == []
    ensures forall w :: w in d.windows ==> w in old(d.windows)
    ensures !d.connected && !d.hasCompositor && !d.hasShm && !d.hasWmBase
  {
    DestroyThemes(d);
    DestroySeats(d);
    DestroyShmFormats(d);
    DestroyToplevels(d);
    d.hasWmBase := false;
    d.hasShm := false;
    d.hasCompositor := false;
    d.connected := false;
  }
}
